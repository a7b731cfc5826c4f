/**
 The line reducer: `merge = convert . collapse . condense`, turning one row or
 column of slots, read in travel order (index 0 is the cell tiles move into),
 into the ordered list of move orders for that line.
 */
module Reducer {
  import opened Auxiliary

  // ---------------------------------------------------------------------
  // Reference views of a line
  // ---------------------------------------------------------------------

  /** The tile values of a line in order, gaps dropped. */
  function TileValues(group: seq<TileObject>): seq<int>
  {
    if group == [] then []
    else
      var prefix := TileValues(group[..|group| - 1]);
      match group[|group| - 1]
      case Empty => prefix
      case Tile(v) => prefix + [v]
  }

  function TokenValues(tokens: seq<ActionToken>): seq<int>
  {
    seq(|tokens|, k requires 0 <= k < |tokens| => tokens[k].value)
  }

  /**
   The 2048 merge rule on bare values, stated independently of the token
   machinery: scanning from the front, a value equal to its successor fuses
   with it into their sum, and the fused tile takes part in no further merge.
   */
  function MergeValues(vs: seq<int>): seq<int>
  {
    if |vs| >= 2 && vs[0] == vs[1] then [vs[0] + vs[1]] + MergeValues(vs[2..])
    else if |vs| >= 1 then [vs[0]] + MergeValues(vs[1..])
    else []
  }

  /** Points earned by `MergeValues`: the sum of the fused tiles. */
  function MergeGain(vs: seq<int>): int
  {
    if |vs| >= 2 && vs[0] == vs[1] then vs[0] + vs[1] + MergeGain(vs[2..])
    else if |vs| >= 1 then MergeGain(vs[1..])
    else 0
  }

  /** Number of fusions `MergeValues` performs. */
  function MergeCount(vs: seq<int>): nat
  {
    if |vs| >= 2 && vs[0] == vs[1] then 1 + MergeCount(vs[2..])
    else if |vs| >= 1 then MergeCount(vs[1..])
    else 0
  }

  function Sum(vs: seq<int>): int
  {
    if vs == [] then 0 else vs[0] + Sum(vs[1..])
  }

  /** Merging keeps the value sum and shortens the line by one per fusion. */
  lemma {:induction false} MergeValuesConserves(vs: seq<int>)
    ensures Sum(MergeValues(vs)) == Sum(vs)
    ensures |MergeValues(vs)| == |vs| - MergeCount(vs)
    decreases |vs|
  {
    if |vs| >= 2 && vs[0] == vs[1] {
      MergeValuesConserves(vs[2..]);
      assert vs[1..][1..] == vs[2..];
      assert [vs[0] + vs[1]] + MergeValues(vs[2..]) == MergeValues(vs);
    } else if |vs| >= 1 {
      MergeValuesConserves(vs[1..]);
      assert [vs[0]] + MergeValues(vs[1..]) == MergeValues(vs);
    }
  }

  /** A line of values is left alone by merging exactly when no two neighbours are equal. */
  lemma {:induction false} MergeValuesFixpoint(vs: seq<int>)
    ensures MergeValues(vs) == vs <==> NoAdjacentEqual(vs)
    decreases |vs|
  {
    if |vs| >= 2 && vs[0] == vs[1] {
      MergeValuesConserves(vs);
    } else if |vs| >= 1 {
      MergeValuesFixpoint(vs[1..]);
      var mv := MergeValues(vs);
      assert mv == [vs[0]] + MergeValues(vs[1..]);
      if mv == vs {
        assert MergeValues(vs[1..]) == mv[1..];
      }
      assert NoAdjacentEqual(vs) <==> (|vs| >= 2 ==> vs[0] != vs[1]) && NoAdjacentEqual(vs[1..]) by {
        assert forall k | 1 <= k < |vs| :: vs[1..][k - 1] == vs[k];
      }
    }
  }

  predicate NoAdjacentEqual(vs: seq<int>)
  {
    forall k | 0 <= k < |vs| - 1 :: vs[k] != vs[k + 1]
  }

  predicate IsPlain(t: ActionToken)
  {
    t.NoAction? || t.Move?
  }

  /**
   Shape of a condensed line of length `n`: only `noAction`/`move` tokens,
   sources strictly increasing and never below the token's own position,
   and a token is `noAction` exactly when it sits at its own position.
   */
  predicate Condensed(tokens: seq<ActionToken>, n: nat)
  {
    && (forall k | 0 <= k < |tokens| :: IsPlain(tokens[k]))
    && (forall k | 0 <= k < |tokens| :: k <= tokens[k].source < n)
    && (forall k, l | 0 <= k < l < |tokens| :: tokens[k].source < tokens[l].source)
    && (forall k | 0 <= k < |tokens| :: tokens[k].NoAction? <==> tokens[k].source == k)
  }

  // ---------------------------------------------------------------------
  // Phase 1: condense
  // ---------------------------------------------------------------------

  /**
   What condensing `group` must yield: a condensed token list carrying the
   tile values in order, each token pointing at the slot holding its tile,
   and a token is `noAction` exactly when every earlier slot holds a tile.
   */
  predicate CondensedFrom(group: seq<TileObject>, tokens: seq<ActionToken>)
  {
    && Condensed(tokens, |group|)
    && TokenValues(tokens) == TileValues(group)
    && (forall k | 0 <= k < |tokens| :: group[tokens[k].source] == Tile(tokens[k].value))
    && (forall k | 0 <= k < |tokens| ::
          tokens[k].NoAction? <==> (forall j | 0 <= j < tokens[k].source :: group[j].Tile?))
  }

  /**
   One token per tile, in line order, value unchanged; `noAction` when the
   output so far is exactly as long as the index, `move` otherwise. Defined
   by appending, as the source's loop does.
   */
  function Condense(group: seq<TileObject>): (tokens: seq<ActionToken>)
    ensures forall k | 0 <= k < |tokens| :: IsPlain(tokens[k])
  {
    if group == [] then []
    else
      var idx := |group| - 1;
      var prefix := Condense(group[..idx]);
      match group[idx]
      case Empty => prefix
      case Tile(v) => prefix + [if |prefix| == idx then NoAction(idx, v) else Move(idx, v)]
  }

  /** Condense meets `CondensedFrom`. */
  lemma {:induction false} CondenseShape(group: seq<TileObject>)
    ensures CondensedFrom(group, Condense(group))
  {
    if group != [] {
      CondenseShape(group[..|group| - 1]);
      CondenseStep(group, Condense(group[..|group| - 1]));
    }
  }

  /** The loop body of condense keeps `CondensedFrom`. */
  lemma CondenseStep(group: seq<TileObject>, prefix: seq<ActionToken>)
    requires group != []
    requires CondensedFrom(group[..|group| - 1], prefix)
    ensures group[|group| - 1].Empty? ==> CondensedFrom(group, prefix)
    ensures group[|group| - 1].Tile? ==>
              var idx := |group| - 1;
              var v := group[idx].value;
              CondensedFrom(group, prefix + [if |prefix| == idx then NoAction(idx, v) else Move(idx, v)])
  {
    var idx := |group| - 1;
    var before := group[..idx];
    TileValuesLength(before);
    assert forall j | 0 <= j < idx :: before[j] == group[j];
    if group[idx].Tile? {
      CondenseKeep(group, prefix);
    } else {
      assert TileValues(group) == TileValues(before);
    }
  }

  /** A tile in the last slot appends one token, `noAction` exactly when no gap precedes it. */
  lemma CondenseKeep(group: seq<TileObject>, prefix: seq<ActionToken>)
    requires group != [] && group[|group| - 1].Tile?
    requires CondensedFrom(group[..|group| - 1], prefix)
    ensures var idx := |group| - 1;
            var v := group[idx].value;
            CondensedFrom(group, prefix + [if |prefix| == idx then NoAction(idx, v) else Move(idx, v)])
  {
    var idx := |group| - 1;
    var before := group[..idx];
    TileValuesLength(before);
    assert forall j | 0 <= j < idx :: before[j] == group[j];
    assert |prefix| == |TileValues(before)|;
    var v := group[idx].value;
    var t := if |prefix| == idx then NoAction(idx, v) else Move(idx, v);
    var tokens := prefix + [t];
    assert TokenValues(tokens) == TokenValues(prefix) + [v];
    assert TileValues(group) == TileValues(before) + [v];
    assert forall k | 0 <= k < |prefix| :: tokens[k] == prefix[k];
    assert t.NoAction? <==> (forall j | 0 <= j < idx :: group[j].Tile?);
  }

  lemma {:induction false} TileValuesLength(group: seq<TileObject>)
    ensures |TileValues(group)| <= |group|
    ensures |TileValues(group)| == |group| <==> forall j | 0 <= j < |group| :: group[j].Tile?
  {
    if group != [] {
      var before := group[..|group| - 1];
      TileValuesLength(before);
      assert forall j | 0 <= j < |before| :: before[j] == group[j];
    }
  }

  // ---------------------------------------------------------------------
  // Phase 2: collapse
  // ---------------------------------------------------------------------

  /** A `noAction` tile is still quiescent when neither a move nor a merge has shifted it. */
  predicate QuiescentTileStillQuiescent(inputPosition: int, outputLength: int, originalPosition: int)
  {
    inputPosition == outputLength && originalPosition == inputPosition
  }

  /**
   The collapse loop from input position `idx` with `outLen` tokens already
   emitted (the source's `tokenBuffer.count`). Each step looks one token
   ahead; a consumed successor is skipped. Combine tokens in the input are a
   precondition violation.
   */
  function CollapseFrom(group: seq<ActionToken>, idx: nat, outLen: nat): (tokens: seq<ActionToken>)
    requires outLen <= idx <= |group|
    requires forall k | idx <= k < |group| :: IsPlain(group[k])
    ensures |tokens| <= |group| - idx
    decreases |group| - idx
  {
    if idx == |group| then []
    else [CollapseToken(group, idx, outLen)] + CollapseFrom(group, idx + Consumed(group, idx), outLen + 1)
  }

  /**
   The token one pass of the collapse loop emits at input position `idx`:
   a quiescent `noAction` equal to its successor becomes a `singleCombine`
   sourced from the successor; any other token equal to its successor
   becomes a `doubleCombine`; a `noAction` that is no longer quiescent
   becomes a `move`; anything else is passed on.
   */
  function CollapseToken(group: seq<ActionToken>, idx: nat, outLen: nat): ActionToken
    requires idx < |group|
  {
    var t := group[idx];
    if t.NoAction? && idx < |group| - 1 && t.value == group[idx + 1].value
       && QuiescentTileStillQuiescent(idx, outLen, t.source) then
      SingleCombine(group[idx + 1].source, t.value + group[idx + 1].value)
    else if idx < |group| - 1 && t.value == group[idx + 1].value then
      DoubleCombine(t.source, group[idx + 1].source, t.value + group[idx + 1].value)
    else if t.NoAction? && !QuiescentTileStillQuiescent(idx, outLen, t.source) then
      Move(t.source, t.value)
    else
      t
  }

  /** How many input tokens the collapse step at `idx` consumes: two when it merges with its successor (`skipNext`). */
  function Consumed(group: seq<ActionToken>, idx: nat): nat
    requires idx < |group|
  {
    if idx < |group| - 1 && group[idx].value == group[idx + 1].value then 2 else 1
  }

  /** One collapse step: a head token, then the collapse of the rest. */
  lemma CollapseHead(group: seq<ActionToken>, idx: nat, outLen: nat)
    requires outLen <= idx < |group|
    requires forall k | idx <= k < |group| :: IsPlain(group[k])
    ensures var tokens := CollapseFrom(group, idx, outLen);
            && |tokens| > 0
            && tokens[1..] == CollapseFrom(group, idx + Consumed(group, idx), outLen + 1)
            && ConvertFrom(tokens, outLen)
               == (if tokens[0].NoAction? then [] else [OrderOf(tokens[0], outLen).value])
                  + ConvertFrom(tokens[1..], outLen + 1)
  {
    var tokens := CollapseFrom(group, idx, outLen);
    assert tokens[1..] == CollapseFrom(group, idx + Consumed(group, idx), outLen + 1);
    ConvertHead(tokens, outLen);
  }

  lemma ConvertHead(tokens: seq<ActionToken>, base: nat)
    requires |tokens| > 0
    ensures ConvertFrom(tokens, base)
            == (if tokens[0].NoAction? then [] else [OrderOf(tokens[0], base).value])
               + ConvertFrom(tokens[1..], base + 1)
  {
  }

  /** The reference rule on the values from `idx`, split after its first step. */
  lemma MergeHead(group: seq<ActionToken>, idx: nat)
    requires idx < |group|
    ensures var step := Consumed(group, idx);
            var head := if step == 2 then group[idx].value + group[idx + 1].value else group[idx].value;
            && MergeValues(TokenValues(group[idx..])) == [head] + MergeValues(TokenValues(group[idx + step..]))
            && MergeGain(TokenValues(group[idx..]))
               == (if step == 2 then head else 0) + MergeGain(TokenValues(group[idx + step..]))
  {
    var vs := TokenValues(group[idx..]);
    assert vs[0] == group[idx].value;
    if Consumed(group, idx) == 2 {
      assert vs[1] == group[idx + 1].value;
      assert vs[2..] == TokenValues(group[idx + 2..]);
    } else {
      assert |vs| >= 2 ==> vs[1] == group[idx + 1].value;
      assert vs[1..] == TokenValues(group[idx + 1..]);
    }
  }

  /** The emitted token carries the merged value exactly when it consumes two inputs, and is then a combine. */
  lemma CollapseTokenValue(group: seq<ActionToken>, idx: nat, outLen: nat)
    requires idx < |group| && IsPlain(group[idx])
    ensures var t := CollapseToken(group, idx, outLen);
            && t.value == (if Consumed(group, idx) == 2 then group[idx].value + group[idx + 1].value
                           else group[idx].value)
            && ((t.SingleCombine? || t.DoubleCombine?) <==> Consumed(group, idx) == 2)
  {
  }

  /** One collapse step in terms of values: the head token, then the collapse of the rest. */
  lemma CollapseCons(group: seq<ActionToken>, idx: nat, outLen: nat)
    requires outLen <= idx < |group|
    requires forall k | idx <= k < |group| :: IsPlain(group[k])
    ensures var tokens := CollapseFrom(group, idx, outLen);
            var rest := CollapseFrom(group, idx + Consumed(group, idx), outLen + 1);
            && tokens == [CollapseToken(group, idx, outLen)] + rest
            && TokenValues(tokens) == [CollapseToken(group, idx, outLen).value] + TokenValues(rest)
  {
    var tokens := CollapseFrom(group, idx, outLen);
    assert TokenValues(tokens) == [tokens[0].value] + TokenValues(tokens[1..]);
  }

  /** Collapse follows the 2048 rule: its values are `MergeValues` of the input values. */
  lemma {:induction false} CollapseValues(group: seq<ActionToken>, idx: nat, outLen: nat)
    requires outLen <= idx <= |group|
    requires forall k | idx <= k < |group| :: IsPlain(group[k])
    ensures TokenValues(CollapseFrom(group, idx, outLen)) == MergeValues(TokenValues(group[idx..]))
    decreases |group| - idx
  {
    if idx < |group| {
      CollapseValues(group, idx + Consumed(group, idx), outLen + 1);
      MergeHead(group, idx);
      CollapseTokenValue(group, idx, outLen);
      CollapseCons(group, idx, outLen);
    }
  }

  /** Points a collapsed token list is worth: the value of every combine token. */
  function CombineGain(tokens: seq<ActionToken>): int
  {
    if tokens == [] then 0
    else (if tokens[0].SingleCombine? || tokens[0].DoubleCombine? then tokens[0].value else 0)
         + CombineGain(tokens[1..])
  }

  /** The combines of the collapse are worth exactly what `MergeGain` awards. */
  lemma {:induction false} CollapseGain(group: seq<ActionToken>, idx: nat, outLen: nat)
    requires outLen <= idx <= |group|
    requires forall k | idx <= k < |group| :: IsPlain(group[k])
    ensures CombineGain(CollapseFrom(group, idx, outLen)) == MergeGain(TokenValues(group[idx..]))
    decreases |group| - idx
  {
    if idx < |group| {
      CollapseGain(group, idx + Consumed(group, idx), outLen + 1);
      MergeHead(group, idx);
      CollapseTokenValue(group, idx, outLen);
      CollapseCons(group, idx, outLen);
    }
  }

  /**
   When each variant may appear in collapse output `tokens` of the input from
   `idx` with `outLen` tokens already out: a `noAction` survives only as the
   unchanged input token, still quiescent, with only plain tokens before it;
   a `singleCombine` needs the loop not to have fallen behind the input and
   can only be the first combine of the line.
   */
  predicate VariantsAllowed(group: seq<ActionToken>, idx: nat, outLen: nat, tokens: seq<ActionToken>)
  {
    && (forall k | 0 <= k < |tokens| && tokens[k].NoAction? ::
          && idx + k < |group|
          && tokens[k] == group[idx + k]
          && QuiescentTileStillQuiescent(idx + k, outLen + k, tokens[k].source)
          && (forall j | 0 <= j < k :: IsPlain(tokens[j])))
    && (forall k | 0 <= k < |tokens| && tokens[k].SingleCombine? ::
          outLen == idx && forall j | 0 <= j < k :: IsPlain(tokens[j]))
  }

  lemma {:induction false} CollapseVariants(group: seq<ActionToken>, idx: nat, outLen: nat)
    requires outLen <= idx <= |group|
    requires forall k | idx <= k < |group| :: IsPlain(group[k])
    ensures VariantsAllowed(group, idx, outLen, CollapseFrom(group, idx, outLen))
    decreases |group| - idx
  {
    if idx < |group| {
      var tokens := CollapseFrom(group, idx, outLen);
      var t := group[idx];
      var step := if idx + 1 < |group| && t.value == group[idx + 1].value then 2 else 1;
      var rest := CollapseFrom(group, idx + step, outLen + 1);
      CollapseVariants(group, idx + step, outLen + 1);
      assert VariantsAllowed(group, idx + step, outLen + 1, rest);
      assert tokens == [tokens[0]] + rest;
      assert forall k | 1 <= k < |tokens| :: tokens[k] == rest[k - 1];
      if step == 2 {
        // the rest starts two inputs on but only one output on, so it has
        // neither a `noAction` nor a `singleCombine`
        assert forall k | 0 <= k < |rest| :: !rest[k].NoAction? && !rest[k].SingleCombine?;
      } else {
        if t.NoAction? && QuiescentTileStillQuiescent(idx, outLen, t.source) {
          assert tokens[0] == t;
        } else {
          assert tokens[0].Move?;
        }
      }
    }
  }

  /**
   The k-th token, which will sit at position `base + k`, takes its tile
   from that position or a later one; a double combine's two tiles are
   taken in line order.
   */
  predicate SourcesAhead(tokens: seq<ActionToken>, base: nat)
  {
    forall k | 0 <= k < |tokens| ::
      && base + k <= tokens[k].source
      && (tokens[k].DoubleCombine? ==> tokens[k].source < tokens[k].second)
  }

  /** Collapse never emits a token ahead of the tiles it is made of. */
  lemma {:induction false} CollapseSourcesAhead(group: seq<ActionToken>, idx: nat, outLen: nat)
    requires outLen <= idx <= |group|
    requires forall k | idx <= k < |group| :: IsPlain(group[k])
    requires forall k | idx <= k < |group| :: k <= group[k].source
    requires forall k | idx <= k < |group| - 1 :: group[k].source < group[k + 1].source
    ensures SourcesAhead(CollapseFrom(group, idx, outLen), outLen)
    decreases |group| - idx
  {
    if idx < |group| {
      var tokens := CollapseFrom(group, idx, outLen);
      CollapseHead(group, idx, outLen);
      CollapseSourcesAhead(group, idx + Consumed(group, idx), outLen + 1);
      HeadAhead(group, idx, outLen);
      ConsSourcesAhead(tokens, outLen);
    }
  }

  /** The head token of a collapse step takes its tiles from its own position or later, in line order. */
  lemma HeadAhead(group: seq<ActionToken>, idx: nat, outLen: nat)
    requires outLen <= idx < |group|
    requires forall k | idx <= k < |group| :: IsPlain(group[k])
    requires forall k | idx <= k < |group| :: k <= group[k].source
    requires forall k | idx <= k < |group| - 1 :: group[k].source < group[k + 1].source
    ensures var t := CollapseFrom(group, idx, outLen)[0];
            outLen <= t.source && (t.DoubleCombine? ==> t.source < t.second)
  {
  }

  lemma ConsSourcesAhead(tokens: seq<ActionToken>, base: nat)
    requires |tokens| > 0 && SourcesAhead(tokens[1..], base + 1)
    requires base <= tokens[0].source && (tokens[0].DoubleCombine? ==> tokens[0].source < tokens[0].second)
    ensures SourcesAhead(tokens, base)
  {
    assert forall k | 1 <= k < |tokens| :: tokens[k] == tokens[1..][k - 1];
  }

  /** Slot `k` holds a tile and every slot after it up to `last` is empty: the tile at `k` is the one just before `last`. */
  predicate FirstInPlace(line: seq<TileObject>, k: nat, last: nat)
  {
    && k < last <= |line|
    && line[k].Tile?
    && forall j | k < j < last :: line[j].Empty?
  }

  predicate IsCombine(t: ActionToken)
  {
    t.SingleCombine? || t.DoubleCombine?
  }

  /**
   What the collapse input token at `k` carries about `line`: it names a
   tile of the line at or after its own position, it is `noAction` exactly
   at its own position, and only empty slots lie between it and the next
   token's tile.
   */
  predicate TrackAt(line: seq<TileObject>, group: seq<ActionToken>, k: nat)
  {
    && k < |group|
    && k <= group[k].source < |line|
    && line[group[k].source].Tile?
    && (group[k].NoAction? <==> group[k].source == k)
    && (k + 1 < |group| ==>
          && group[k].source < group[k + 1].source
          && forall j | group[k].source < j < group[k + 1].source && j < |line| :: line[j].Empty?)
  }

  /** The collapse input from `idx` on: plain tokens, each tracking its tile of `line`. */
  predicate TracksLine(line: seq<TileObject>, group: seq<ActionToken>, idx: nat)
  {
    && (forall k | idx <= k < |group| :: IsPlain(group[k]))
    && (forall k | idx <= k < |group| :: TrackAt(line, group, k))
  }

  /** Only empty slots lie between the tiles of consecutive tokens of `tokens`, and after the last one. */
  predicate GapsEmpty(group: seq<TileObject>, tokens: seq<ActionToken>)
  {
    && (forall k, j | 0 <= k < |tokens| - 1 && tokens[k].source < j < tokens[k + 1].source && j < |group| ::
          group[j].Empty?)
    && (forall j | (if tokens == [] then 0 else tokens[|tokens| - 1].source + 1) <= j < |group| ::
          group[j].Empty?)
  }

  /** Condense leaves only empty slots between the tiles of consecutive tokens and after the last one. */
  lemma {:induction false} CondenseGaps(group: seq<TileObject>)
    ensures GapsEmpty(group, Condense(group))
  {
    if group != [] {
      var before := group[..|group| - 1];
      CondenseGaps(before);
      CondenseShape(before);
      GapsStep(group, Condense(before));
    }
  }

  /** The loop body of condense keeps `GapsEmpty`. */
  lemma GapsStep(group: seq<TileObject>, prefix: seq<ActionToken>)
    requires group != []
    requires GapsEmpty(group[..|group| - 1], prefix)
    requires forall k | 0 <= k < |prefix| :: prefix[k].source < |group| - 1
    ensures var idx := |group| - 1;
            match group[idx]
            case Empty => GapsEmpty(group, prefix)
            case Tile(v) => GapsEmpty(group, prefix + [if |prefix| == idx then NoAction(idx, v) else Move(idx, v)])
  {
    var idx := |group| - 1;
    var before := group[..idx];
    assert forall j | 0 <= j < idx :: before[j] == group[j];
    if group[idx].Tile? {
      var v := group[idx].value;
      var tokens := prefix + [if |prefix| == idx then NoAction(idx, v) else Move(idx, v)];
      assert forall k | 0 <= k < |prefix| :: tokens[k] == prefix[k];
    }
  }

  /** Condense's output tracks its line. */
  lemma CondenseTracks(line: seq<TileObject>)
    ensures TracksLine(line, Condense(line), 0)
  {
    CondenseShape(line);
    CondenseGaps(line);
    var g := Condense(line);
    forall k | 0 <= k < |g|
      ensures TrackAt(line, g, k)
    {
      if k + 1 < |g| {
        assert forall j | g[k].source < j < g[k + 1].source && j < |line| :: line[j].Empty?;
      }
    }
  }

  /** Every combine at position `base + k` takes its first tile from a later slot exactly when it is a `doubleCombine`. */
  predicate CombinesPlaced(line: seq<TileObject>, tokens: seq<ActionToken>, base: nat)
  {
    forall k | 0 <= k < |tokens| && IsCombine(tokens[k]) ::
      && base + k < tokens[k].source
      && (tokens[k].SingleCombine? <==> FirstInPlace(line, base + k, LastSource(tokens[k])))
  }

  /**
   How collapse tells its two combines apart: a combine emitted at output
   position `outLen + k` takes its first tile from a later slot when it is a
   `doubleCombine`, and from that very slot when it is a `singleCombine`.
   */
  lemma {:induction false} CollapseCombineKinds(line: seq<TileObject>, group: seq<ActionToken>, idx: nat, outLen: nat)
    requires outLen <= idx <= |group|
    requires TracksLine(line, group, idx)
    ensures CombinesPlaced(line, CollapseFrom(group, idx, outLen), outLen)
    decreases |group| - idx
  {
    if idx < |group| {
      var step := Consumed(group, idx);
      TracksLater(line, group, idx, idx + step);
      CollapseCombineKinds(line, group, idx + step, outLen + 1);
      CombineStep(line, group, idx, outLen);
      ConsCombinesPlaced(line, CollapseFrom(group, idx, outLen), outLen);
    }
  }

  /** The head token of one collapse step is placed as `CombinesPlaced` asks. */
  lemma CombineStep(line: seq<TileObject>, group: seq<ActionToken>, idx: nat, outLen: nat)
    requires outLen <= idx < |group|
    requires TracksLine(line, group, idx)
    ensures var tokens := CollapseFrom(group, idx, outLen);
            && |tokens| > 0
            && tokens[1..] == CollapseFrom(group, idx + Consumed(group, idx), outLen + 1)
            && (IsCombine(tokens[0]) ==>
                  && outLen < tokens[0].source
                  && (tokens[0].SingleCombine? <==> FirstInPlace(line, outLen, LastSource(tokens[0]))))
  {
    CollapseCons(group, idx, outLen);
    if Consumed(group, idx) == 2 {
      CombineHead(line, group, idx, outLen);
    }
  }

  lemma TracksLater(line: seq<TileObject>, group: seq<ActionToken>, idx: nat, idx': nat)
    requires idx <= idx' && TracksLine(line, group, idx)
    ensures TracksLine(line, group, idx')
  {
  }

  /** A head token placed as `CombinesPlaced` asks, before a placed tail, keeps the whole list placed. */
  lemma ConsCombinesPlaced(line: seq<TileObject>, tokens: seq<ActionToken>, base: nat)
    requires |tokens| > 0 && CombinesPlaced(line, tokens[1..], base + 1)
    requires IsCombine(tokens[0]) ==>
               && base < tokens[0].source
               && (tokens[0].SingleCombine? <==> FirstInPlace(line, base, LastSource(tokens[0])))
    ensures CombinesPlaced(line, tokens, base)
  {
    assert forall k | 1 <= k < |tokens| :: tokens[k] == tokens[1..][k - 1];
  }

  /** The combine one collapse step emits, as `CollapseCombineKinds` describes it. */
  lemma CombineHead(line: seq<TileObject>, group: seq<ActionToken>, idx: nat, outLen: nat)
    requires outLen <= idx < |group| - 1
    requires TracksLine(line, group, idx)
    requires group[idx].value == group[idx + 1].value
    ensures var t := CollapseToken(group, idx, outLen);
            && IsCombine(t)
            && LastSource(t) == group[idx + 1].source
            && outLen < t.source
            && (t.SingleCombine? <==> FirstInPlace(line, outLen, LastSource(t)))
  {
    assert TrackAt(line, group, idx) && TrackAt(line, group, idx + 1);
    var first := group[idx].source;
    assert first < group[idx + 1].source;
    if !CollapseToken(group, idx, outLen).SingleCombine? {
      assert outLen < first;
      assert outLen < first < group[idx + 1].source && line[first].Tile?;
    }
  }

  /**
   On any line, every combine at position `k` takes its first tile from
   slot `k` or later; it is a `singleCombine` exactly when that tile has not
   moved (it already sits in slot `k`), so every `doubleCombine` slides its
   first tile.
   */
  lemma LineCombineKinds(line: seq<TileObject>)
    ensures var c := Collapse(Condense(line));
            forall k | 0 <= k < |c| && IsCombine(c[k]) ::
              && k < c[k].source
              && (c[k].SingleCombine? <==> FirstInPlace(line, k, LastSource(c[k])))
  {
    CondenseTracks(line);
    CollapseCombineKinds(line, Condense(line), 0, 0);
    assert CombinesPlaced(line, Collapse(Condense(line)), 0);
  }

  /** The last tile a token takes: the second one of a double combine, else its source. */
  function LastSource(t: ActionToken): nat
  {
    if t.DoubleCombine? then t.second else t.source
  }

  /**
   No tile is used twice: the tiles named by the tokens, read in order,
   strictly increase.
   */
  predicate SingleUse(tokens: seq<ActionToken>)
  {
    && (forall k | 0 <= k < |tokens| :: tokens[k].source <= LastSource(tokens[k]))
    && (forall j, l | 0 <= j < l < |tokens| :: LastSource(tokens[j]) < tokens[l].source)
  }

  /** Collapse uses each input tile at most once, consuming a merged successor. */
  lemma {:induction false} CollapseSingleUse(group: seq<ActionToken>, idx: nat, outLen: nat)
    requires outLen <= idx <= |group|
    requires forall k | idx <= k < |group| :: IsPlain(group[k])
    requires forall j, l | idx <= j < l < |group| :: group[j].source < group[l].source
    ensures SingleUse(CollapseFrom(group, idx, outLen))
    ensures forall k | 0 <= k < |CollapseFrom(group, idx, outLen)| ::
              group[idx].source <= CollapseFrom(group, idx, outLen)[k].source
    decreases |group| - idx
  {
    if idx < |group| {
      var step := Consumed(group, idx);
      CollapseHead(group, idx, outLen);
      CollapseSingleUse(group, idx + step, outLen + 1);
      HeadSources(group, idx, outLen);
      var tokens := CollapseFrom(group, idx, outLen);
      var hi := if idx + step < |group| then group[idx + step].source else LastSource(tokens[0]) + 1;
      ConsSingleUse(tokens, group[idx].source, hi);
    }
  }

  /** The head token of a collapse step takes the tiles at `idx` up to the last consumed input. */
  lemma HeadSources(group: seq<ActionToken>, idx: nat, outLen: nat)
    requires outLen <= idx < |group|
    requires forall k | idx <= k < |group| :: IsPlain(group[k])
    requires forall j, l | idx <= j < l < |group| :: group[j].source < group[l].source
    ensures var t := CollapseFrom(group, idx, outLen)[0];
            && group[idx].source <= t.source <= LastSource(t)
            && LastSource(t) == group[idx + Consumed(group, idx) - 1].source
  {
  }

  /** A head token below a single-use tail, all of whose tiles come later, keeps single use. */
  lemma ConsSingleUse(tokens: seq<ActionToken>, lo: nat, hi: nat)
    requires |tokens| > 0 && SingleUse(tokens[1..])
    requires lo <= tokens[0].source <= LastSource(tokens[0]) < hi
    requires forall k | 0 <= k < |tokens[1..]| :: hi <= tokens[1..][k].source
    ensures SingleUse(tokens)
    ensures forall k | 0 <= k < |tokens| :: lo <= tokens[k].source
  {
    assert forall k | 1 <= k < |tokens| :: tokens[k] == tokens[1..][k - 1];
  }

  function Collapse(group: seq<ActionToken>): seq<ActionToken>
    requires forall k | 0 <= k < |group| :: IsPlain(group[k])
  {
    CollapseFrom(group, 0, 0)
  }

  // ---------------------------------------------------------------------
  // Phase 3: convert
  // ---------------------------------------------------------------------

  /** The order a token at line position `dest` turns into; `noAction` needs none. */
  function OrderOf(t: ActionToken, dest: nat): Option<MoveOrder>
  {
    match t
    case NoAction(_, _) => None
    case Move(s, v) => Some(SingleMoveOrder(s, dest, v, false))
    case SingleCombine(s, v) => Some(SingleMoveOrder(s, dest, v, true))
    case DoubleCombine(s1, s2, v) => Some(DoubleMoveOrder(s1, s2, dest, v))
  }

  /** Convert from a token list whose first element sits at position `base`. */
  function ConvertFrom(group: seq<ActionToken>, base: nat): seq<MoveOrder>
  {
    if group == [] then []
    else
      var rest := ConvertFrom(group[1..], base + 1);
      match OrderOf(group[0], base)
      case None => rest
      case Some(o) => [o] + rest
  }

  /** Destinations lie inside the token list and strictly increase. */
  predicate OrdersOrdered(group: seq<ActionToken>, base: nat, orders: seq<MoveOrder>)
  {
    && |orders| <= |group|
    && (forall j | 0 <= j < |orders| :: base <= orders[j].destination < base + |group|)
    && (forall j, l | 0 <= j < l < |orders| :: orders[j].destination < orders[l].destination)
  }

  lemma {:induction false} ConvertFromOrdered(group: seq<ActionToken>, base: nat)
    ensures OrdersOrdered(group, base, ConvertFrom(group, base))
  {
    if group != [] {
      var rest := ConvertFrom(group[1..], base + 1);
      ConvertFromOrdered(group[1..], base + 1);
      var orders := ConvertFrom(group, base);
      match OrderOf(group[0], base)
      case None =>
        assert orders == rest;
      case Some(o) =>
        assert orders == [o] + rest;
        assert forall j | 1 <= j < |orders| :: orders[j] == rest[j - 1];
    }
  }

  /** Every order is the one its destination's token calls for. */
  predicate OrdersSound(group: seq<ActionToken>, base: nat, orders: seq<MoveOrder>)
  {
    forall j | 0 <= j < |orders| ::
      && base <= orders[j].destination < base + |group|
      && OrderOf(group[orders[j].destination - base], orders[j].destination) == Some(orders[j])
  }

  /** Every token other than `noAction` yields its order. */
  predicate OrdersComplete(group: seq<ActionToken>, base: nat, orders: seq<MoveOrder>)
  {
    forall k | 0 <= k < |group| && !group[k].NoAction? ::
      OrderOf(group[k], base + k).Some? && OrderOf(group[k], base + k).value in orders
  }

  /** Convert loses and invents nothing. */
  lemma {:induction false} ConvertFromFaithful(group: seq<ActionToken>, base: nat)
    ensures OrdersSound(group, base, ConvertFrom(group, base))
    ensures OrdersComplete(group, base, ConvertFrom(group, base))
  {
    if group != [] {
      var tail := group[1..];
      var rest := ConvertFrom(tail, base + 1);
      ConvertFromFaithful(tail, base + 1);
      ConvertHeadTail(group, base, tail, rest);
    }
  }

  lemma ConvertHeadTail(group: seq<ActionToken>, base: nat, tail: seq<ActionToken>, rest: seq<MoveOrder>)
    requires group != [] && tail == group[1..] && rest == ConvertFrom(tail, base + 1)
    requires OrdersSound(tail, base + 1, rest) && OrdersComplete(tail, base + 1, rest)
    ensures OrdersSound(group, base, ConvertFrom(group, base))
    ensures OrdersComplete(group, base, ConvertFrom(group, base))
  {
    var head := OrderOf(group[0], base);
    var orders := ConvertFrom(group, base);
    if head.Some? {
      assert orders == [head.value] + rest;
      PrependSound(group, base, tail, rest, head.value);
      PrependComplete(group, base, tail, rest, head.value);
    } else {
      assert orders == rest;
      DropNoAction(group, base, tail, rest);
    }
  }

  lemma DropNoAction(group: seq<ActionToken>, base: nat, tail: seq<ActionToken>, rest: seq<MoveOrder>)
    requires group != [] && tail == group[1..] && group[0].NoAction?
    requires OrdersSound(tail, base + 1, rest) && OrdersComplete(tail, base + 1, rest)
    ensures OrdersSound(group, base, rest) && OrdersComplete(group, base, rest)
  {
    forall k | 0 <= k < |group| && !group[k].NoAction?
      ensures OrderOf(group[k], base + k).Some? && OrderOf(group[k], base + k).value in rest
    {
      assert k > 0 && group[k] == tail[k - 1];
    }
    forall j | 0 <= j < |rest|
      ensures OrderOf(group[rest[j].destination - base], rest[j].destination) == Some(rest[j])
    {
      assert group[rest[j].destination - base] == tail[rest[j].destination - (base + 1)];
    }
  }

  lemma PrependSound(group: seq<ActionToken>, base: nat, tail: seq<ActionToken>, rest: seq<MoveOrder>, o: MoveOrder)
    requires group != [] && tail == group[1..] && OrderOf(group[0], base) == Some(o)
    requires OrdersSound(tail, base + 1, rest)
    ensures OrdersSound(group, base, [o] + rest)
  {
    var orders := [o] + rest;
    forall j | 0 <= j < |orders|
      ensures base <= orders[j].destination < base + |group|
      ensures OrderOf(group[orders[j].destination - base], orders[j].destination) == Some(orders[j])
    {
      if j > 0 {
        assert orders[j] == rest[j - 1];
        assert group[rest[j - 1].destination - base] == tail[rest[j - 1].destination - (base + 1)];
      }
    }
  }

  lemma PrependComplete(group: seq<ActionToken>, base: nat, tail: seq<ActionToken>, rest: seq<MoveOrder>, o: MoveOrder)
    requires group != [] && tail == group[1..] && OrderOf(group[0], base) == Some(o)
    requires OrdersComplete(tail, base + 1, rest)
    ensures OrdersComplete(group, base, [o] + rest)
  {
    forall k | 0 <= k < |group| && !group[k].NoAction?
      ensures OrderOf(group[k], base + k).Some? && OrderOf(group[k], base + k).value in [o] + rest
    {
      if k > 0 {
        assert group[k] == tail[k - 1];
      }
    }
  }

  /** An order never moves a tile away from the front of the line. */
  predicate TowardFront(o: MoveOrder)
  {
    match o
    case SingleMoveOrder(s, d, _, _) => d <= s
    case DoubleMoveOrder(s1, s2, d, _) => d <= s1 < s2
  }

  /** Sources ahead of their tokens become orders whose sources are at or after their destinations. */
  lemma ConvertTowardFront(group: seq<ActionToken>, base: nat)
    requires SourcesAhead(group, base)
    ensures forall j | 0 <= j < |ConvertFrom(group, base)| :: TowardFront(ConvertFrom(group, base)[j])
  {
    ConvertFromFaithful(group, base);
    var orders := ConvertFrom(group, base);
    forall j | 0 <= j < |orders|
      ensures TowardFront(orders[j])
    {
      var dest := orders[j].destination;
      assert OrderOf(group[dest - base], dest) == Some(orders[j]);
      assert base + (dest - base) <= group[dest - base].source;
    }
  }

  function Convert(group: seq<ActionToken>): seq<MoveOrder>
  {
    ConvertFrom(group, 0)
  }

  /** The whole reducer for one line. */
  function Merge(group: seq<TileObject>): seq<MoveOrder>
  {
    Convert(Collapse(Condense(group)))
  }

  /**
   Every order of a line takes its tiles from its destination or beyond, and
   destinations strictly increase, so writing the orders back in sequence
   never reads a cell an earlier order has already written.
   */
  lemma MergeTowardFront(group: seq<TileObject>)
    ensures forall j | 0 <= j < |Merge(group)| :: TowardFront(Merge(group)[j])
    ensures forall j, l | 0 <= j < l < |Merge(group)| ::
              Merge(group)[j].destination < Merge(group)[l].destination
  {
    var tokens := Condense(group);
    CondenseShape(group);
    assert Condensed(tokens, |group|);
    CollapseSourcesAhead(tokens, 0, 0);
    ConvertTowardFront(Collapse(tokens), 0);
    ConvertFromOrdered(Collapse(tokens), 0);
  }

  /** Within one line, every tile feeds at most one collapsed token. */
  lemma LineSingleUse(group: seq<TileObject>)
    ensures SingleUse(Collapse(Condense(group)))
  {
    CondenseShape(group);
    assert Condensed(Condense(group), |group|);
    CollapseSingleUse(Condense(group), 0, 0);
  }
}
