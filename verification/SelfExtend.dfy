/**
 Self-Extend (grouped attention): the loop of `main_` that squeezes the oldest
 tokens of the cache into groups of `ga_n`, so that positions grow more slowly
 than tokens.
 */
module SelfExtend {
  import opened LlamaMemory

  /**
   Where token j sits after k groupings, with g = ga_n and w = ga_w / ga_n: the
   first k * ga_w tokens share positions g at a time, the others have moved down
   by k * w * (g - 1).
   */
  function Spot(j: nat, k: nat, g: nat, w: nat): (p: nat)
    requires g >= 1
  {
    Ledger(k, g, w);
    SpotAt(j, k * (w * g), k * (w * (g - 1)), g)
  }

  function SpotAt(j: nat, front: nat, gain: nat, g: nat): (p: nat)
    requires g >= 1 && gain <= front
  {
    if j < front then j / g else j - gain
  }

  /** A grouping takes ga_w = w * g tokens out of the queue and hands out w positions; the rest is gained. */
  lemma Ledger(k: nat, g: nat, w: nat)
    requires g >= 1
    ensures w * g == w * (g - 1) + w
    ensures k * (w * g) == k * (w * (g - 1)) + k * w == g * (k * w)
    ensures (k + 1) * (w * g) == k * (w * g) + w * g
    ensures (k + 1) * (w * (g - 1)) == k * (w * (g - 1)) + w * (g - 1)
    ensures (k + 1) * w == k * w + w
    ensures 0 <= k * w && 0 <= k * (w * (g - 1))
  {
    var bd := w * (g - 1);
    assert w * g == bd + w;
    assert k * (bd + w) == k * bd + k * w;
    assert g * (k * w) == (g * k) * w == (k * g) * w == k * (g * w);
  }

  function Squeezed(tokens: seq<Token>, k: nat, g: nat, w: nat): (cells: seq<Cell>)
    requires g >= 1
  {
    Ledger(k, g, w);
    SqueezedAt(tokens, k * (w * g), k * (w * (g - 1)), g)
  }

  function SqueezedAt(tokens: seq<Token>, front: nat, gain: nat, g: nat): (cells: seq<Cell>)
    requires g >= 1 && gain <= front
    ensures |cells| == |tokens|
    ensures forall j :: 0 <= j < |tokens| ==> cells[j] == Cell(tokens[j], SpotAt(j, front, gain, g))
  {
    seq(|tokens|, j requires 0 <= j < |tokens| => Cell(tokens[j], SpotAt(j, front, gain, g)))
  }

  /** The group number of j, bounded by whole groups. */
  lemma DivBelow(j: nat, g: nat, n: nat)
    requires g >= 1
    ensures j < g * n <==> j / g < n
  {
    var q := j / g;
    assert j == g * q + j % g;
    MulMonotone(g, q + 1, n);
    MulMonotone(g, n, q);
    assert g * (q + 1) == g * q + g;
  }

  lemma MulMonotone(g: nat, a: int, b: int)
    ensures a <= b ==> g * a <= g * b
  {
  }

  lemma AddBlock(tokens: seq<Token>, front: nat, gain: nat, g: nat, low: nat)
    requires g >= 1 && front == low + gain == g * low && front <= |tokens|
    ensures var c1 := AddSpan(SqueezedAt(tokens, front, gain, g), low, |tokens| - gain, gain);
            |c1| == |tokens| &&
            forall j :: 0 <= j < |tokens| ==> c1[j] == Cell(tokens[j], if j < front then j / g else j)
  {
    var c0 := SqueezedAt(tokens, front, gain, g);
    AddSpanAt(c0, low, |tokens| - gain, gain);
    forall j: nat | j < |tokens|
      ensures j < front ==> c0[j].pos < low
    {
      DivBelow(j, g, low);
    }
  }

  lemma DivBlock(tokens: seq<Token>, c1: seq<Cell>, front: nat, g: nat, low: nat, block: nat)
    requires g >= 1 && front == g * low
    requires |c1| == |tokens|
    requires forall j :: 0 <= j < |tokens| ==> c1[j] == Cell(tokens[j], if j < front then j / g else j)
    ensures var c2 := DivSpan(c1, front, front + block, g);
            |c2| == |tokens| &&
            forall j :: 0 <= j < |tokens| ==> c2[j] == Cell(tokens[j], if j < front + block then j / g else j)
  {
    DivSpanAt(c1, front, front + block, g);
    forall j: nat | j < |tokens|
      ensures j < front ==> j / g < front
    {
      DivBelow(j, g, low);
      MulMonotone(low, 1, g);
    }
  }

  lemma DropBlock(tokens: seq<Token>, c2: seq<Cell>, front: nat, gain: nat, g: nat, low: nat)
    requires g >= 1 && front == low + gain == g * low && front <= |tokens|
    requires |c2| == |tokens|
    requires forall j :: 0 <= j < |tokens| ==> c2[j] == Cell(tokens[j], if j < front then j / g else j)
    ensures AddSpan(c2, front, |tokens|, -(gain as int)) == SqueezedAt(tokens, front, gain, g)
  {
    hide AddSpan;
    forall j: nat | j < |tokens|
      ensures j < front ==> j / g < front
    {
      DivBelow(j, g, low);
    }
    AddSpanAt(c2, front, |tokens|, -(gain as int));
    assert AddSpan(c2, front, |tokens|, -(gain as int)) == SqueezedAt(tokens, front, gain, g);
  }

  /** One pass of the loop: three span operations make one more grouping. */
  lemma OneGrouping(tokens: seq<Token>, k: nat, g: nat, w: nat)
    requires g >= 1 && w >= 1
    requires |tokens| >= (k + 1) * (w * g)
    ensures var bd := w * (g - 1);
            var nPast := |tokens| - k * bd;
            var c1 := AddSpan(Squeezed(tokens, k, g, w), k * w, nPast, k * bd);
            var c2 := DivSpan(c1, k * w + k * bd, k * w + k * bd + w * g, g);
            AddSpan(c2, k * w + k * bd + w * g, nPast + k * bd, w - k * bd - w * g)
            == Squeezed(tokens, k + 1, g, w)
  {
    hide AddSpan, DivSpan, SqueezedAt;
    Ledger(k, g, w);
    Ledger(k + 1, g, w);
    var front, gain, low := k * (w * g), k * (w * (g - 1)), k * w;
    var front', gain', low' := (k + 1) * (w * g), (k + 1) * (w * (g - 1)), (k + 1) * w;
    AddBlock(tokens, front, gain, g, low);
    var c1 := AddSpan(SqueezedAt(tokens, front, gain, g), low, |tokens| - gain, gain);
    DivBlock(tokens, c1, front, g, low, w * g);
    var c2 := DivSpan(c1, front, front + w * g, g);
    DropBlock(tokens, c2, front', gain', g, low');
    assert w - gain - w * g == -(gain' as int);
  }

  /** Positions never decrease along the tokens, and never step by more than the tokens do. */
  lemma SpotsMonotone(i: nat, j: nat, k: nat, g: nat, w: nat)
    requires g >= 1 && i <= j
    ensures Spot(i, k, g, w) <= Spot(j, k, g, w) <= Spot(i, k, g, w) + (j - i)
  {
    Ledger(k, g, w);
    var front, gain, low := k * (w * g), k * (w * (g - 1)), k * w;
    if j < front {
      DivStep(i, j, g);
    } else if i < front {
      var last := front - 1;
      DivStep(i, last, g);
      DivBelow(last, g, low);
      DivBelow(last, g, low - 1);
    }
  }

  lemma DivStep(i: nat, j: nat, g: nat)
    requires g >= 1 && i <= j
    ensures i / g <= j / g <= i / g + (j - i)
  {
    DivBelow(i, g, j / g + 1);
    DivBelow(j, g, j / g + 1);
    var n := i / g + (j - i) + 1;
    DivBelow(i, g, i / g + 1);
    assert g * n == g * (i / g + 1) + g * (j - i);
    MulMonotone(j - i, 1, g);
    DivBelow(j, g, n);
  }

  /** No hole below n_past: every position is the place of some token. */
  lemma SpotsCover(n: nat, k: nat, g: nat, w: nat, p: nat) returns (j: nat)
    requires g >= 1 && k * (w * g) <= n
    requires p < n - k * (w * (g - 1))
    ensures j < n && Spot(j, k, g, w) == p
  {
    Ledger(k, g, w);
    if p < k * w {
      j := g * p;
      DivBelow(j, g, p);
      DivBelow(j, g, p + 1);
      DivBelow(j, g, k * w);
      assert g * (p + 1) == g * p + g;
    } else {
      j := p + k * (w * (g - 1));
    }
  }

  /** The next decoded token lands at n_past, as `main_` assumes. */
  lemma SqueezedNext(tokens: seq<Token>, k: nat, g: nat, w: nat)
    requires g >= 1 && k * (w * g) <= |tokens|
    ensures NextPos(Squeezed(tokens, k, g, w)) == |tokens| - k * (w * (g - 1))
  {
    Ledger(k, g, w);
    var n, past := |tokens|, |tokens| - k * (w * (g - 1));
    var cells := Squeezed(tokens, k, g, w);
    forall c | c in cells
      ensures c.pos < past
    {
      var j: nat :| j < |cells| && cells[j] == c;
      if j < k * (w * g) {
        DivBelow(j, g, k * w);
      }
    }
    if past > 0 {
      var j := SpotsCover(n, k, g, w, past - 1);
      assert cells[j] in cells;
    }
  }

  /** C++ `/`: towards zero. */
  function TruncDiv(a: int, b: int): int
    requires b > 0
  {
    if a >= 0 then a / b else -((-a) / b)
  }

  /** i + 1 blocks of d fit into n exactly when i + 1 <= n / d. */
  lemma Quotient(n: nat, i: nat, d: nat)
    requires d > 0
    ensures i + 1 <= n / d <==> (i + 1) * d <= n
  {
    DivBelow(n, d, i + 1);
    assert d * (i + 1) == (i + 1) * d;
  }

  /** The cells of `tokens` once all whole blocks of the first `done` of them are grouped. */
  function GroupedUpTo(tokens: seq<Token>, done: nat, gaN: int, gaW: int): seq<Cell>
    requires gaN > 0 && gaW > 0
  {
    Squeezed(tokens, done / gaW, gaN, gaW / gaN)
  }

  /** The cache, `n_past` and `ga_i` after k groupings of `tokens`. */
  ghost predicate Grouped(cells: seq<Cell>, nPast: int, gaI: int, tokens: seq<Token>, k: nat, g: nat, w: nat)
    requires g >= 1
  {
    && k * (w * g) <= |tokens|
    && cells == Squeezed(tokens, k, g, w)
    && nPast == |tokens| - k * (w * (g - 1))
    && gaI == k * w
  }

  /**
   A saved cache that is loaded again with `n_past` counted from the tokens and `ga_i` back at
   0: nothing is dropped from it, and it is in closed form exactly if it was never grouped.
   */
  lemma Reloaded(tokens: seq<Token>, k: nat, g: nat, w: nat)
    requires g >= 2 && w >= 1 && k * (w * g) <= |tokens|
    ensures var cells := Squeezed(tokens, k, g, w);
            && RemoveSpan(cells, |tokens|, -1) == cells
            && (NextPos(cells) == |tokens| <==> k == 0)
            && ((exists j :: Grouped(cells, |tokens|, 0, tokens, j, g, w)) <==> k == 0)
  {
    var cells := Squeezed(tokens, k, g, w);
    hide Squeezed, NextPos;
    SqueezedNext(tokens, k, g, w);
    Gained(k, g, w);
    NothingBehind(cells, |tokens|);
    if k == 0 {
      assert Grouped(cells, |tokens|, 0, tokens, 0, g, w);
    }
    forall j | Grouped(cells, |tokens|, 0, tokens, j, g, w)
      ensures k == 0
    {
      Gained(j, g, w);
      SqueezedNext(tokens, j, g, w);
    }
  }

  /** Groupings gain positions. */
  lemma Gained(k: nat, g: nat, w: nat)
    requires g >= 2 && w >= 1
    ensures k * (w * (g - 1)) >= k && (k * w == 0 <==> k == 0)
    ensures k == 0 ==> k * (w * (g - 1)) == 0
  {
    MulMonotone(w, 1, g - 1);
    MulMonotone(k, 1, w * (g - 1));
    MulMonotone(k, 1, w);
  }

  lemma {:induction false} NothingBehind(cells: seq<Cell>, n: nat)
    requires NextPos(cells) <= n
    ensures RemoveSpan(cells, n, -1) == cells
  {
    assert forall c :: c in cells ==> c.pos < n;
    NoneBehind(cells, n);
  }

  lemma {:induction false} NoneBehind(cells: seq<Cell>, n: nat)
    requires forall c :: c in cells ==> c.pos < n
    ensures RemoveSpan(cells, n, -1) == cells
  {
    if cells != [] {
      NoneBehind(cells[1..], n);
      assert cells[0] in cells;
    }
  }

  /** A cache without cells has no groupings yet. */
  lemma NothingGrouped(g: nat, w: nat)
    requires g >= 1
    ensures Grouped([], 0, 0, [], 0, g, w)
  {
  }

  /** Decoding more tokens keeps the closed form, with the same groupings. */
  lemma MoreTokens(cells: seq<Cell>, nPast: int, gaI: int, tokens: seq<Token>, k: nat, g: nat, w: nat, more: seq<Token>)
    requires g >= 1 && Grouped(cells, nPast, gaI, tokens, k, g, w)
    ensures Grouped(cells + PlaceFrom(more, NextPos(cells)), nPast + |more|, gaI, tokens + more, k, g, w)
    ensures |cells| == |tokens|
  {
    hide NextPos, PlaceFrom;
    Ledger(k, g, w);
    SqueezedNext(tokens, k, g, w);
    var all := cells + PlaceFrom(more, NextPos(cells));
    assert all == Squeezed(tokens + more, k, g, w);
  }

  /** The body of the loop: n_past - ga_i drops by ga_w, and one grouping is added. */
  method ExtendOnce(ctx: Context, nPast: int, gaI: int, gaN: int, gaW: int, ghost tokens: seq<Token>, ghost i: nat)
    returns (nPast': int, gaI': int)
    requires gaN > 0 && gaW % gaN == 0 && gaW > 0
    requires nPast >= gaI + gaW
    modifies ctx
    ensures nPast' - gaI' == nPast - gaI - gaW
    ensures ctx.logits == old(ctx.logits)
    ensures Grouped(old(ctx.cells), nPast, gaI, tokens, i, gaN, gaW / gaN) ==>
              Grouped(ctx.cells, nPast', gaI', tokens, i + 1, gaN, gaW / gaN)
  {
    ghost var w := gaW / gaN;
    ghost var known := Grouped(ctx.cells, nPast, gaI, tokens, i, gaN, w);
    assert gaW == w * gaN;
    var ib := TruncDiv(gaN * gaI, gaW);
    var bd := (gaW / gaN) * (gaN - 1);
    var dd := (gaW / gaN) - ib * bd - gaW;
    Ledger(i, gaN, w);
    if known {
      assert ib == i by {
        assert gaN * (i * w) == i * gaW;
        MulThenDiv(i, gaW);
      }
      OneGrouping(tokens, i, gaN, w);
    }
    ctx.SeqAdd(gaI, nPast, ib * bd);
    ctx.SeqDiv(gaI + ib * bd, gaI + ib * bd + gaW, gaN);
    ctx.SeqAdd(gaI + ib * bd + gaW, nPast + ib * bd, dd);
    nPast' := nPast - bd;
    gaI' := gaI + gaW / gaN;
  }

  lemma MulThenDiv(i: nat, d: nat)
    requires d > 0
    ensures (i * d) / d == i
  {
    DivBelow(i * d, d, i);
    DivBelow(i * d, d, i + 1);
    assert d * (i + 1) == i * d + d;
  }

  /**
   The Self-Extend loop.  When `tokens` and `k` describe the cache on entry, exactly
   `|tokens| / ga_w` groupings have been made on return.  The two assertions of the
   source leave out `ga_w > 0`: at 0 the first pass divides by zero, below 0 the loop
   cannot be left (`Guard`).
   */
  method Extend(ctx: Context, nPast: int, gaI: int, gaN: int, gaW: int, ghost tokens: seq<Token>, ghost k: nat)
    returns (nPast': int, gaI': int)
    requires gaN > 0 && gaW % gaN == 0 && gaW > 0
    modifies ctx
    ensures nPast' < gaI' + gaW
    ensures ctx.logits == old(ctx.logits)
    ensures Grouped(old(ctx.cells), nPast, gaI, tokens, k, gaN, gaW / gaN) ==>
              Grouped(ctx.cells, nPast', gaI', tokens, |tokens| / gaW, gaN, gaW / gaN)
  {
    nPast', gaI' := nPast, gaI;
    ghost var w := gaW / gaN;
    ghost var known := Grouped(ctx.cells, nPast, gaI, tokens, k, gaN, w);
    ghost var i: nat := k;
    while nPast' >= gaI' + gaW
      invariant known ==> Grouped(ctx.cells, nPast', gaI', tokens, i, gaN, w)
      invariant ctx.logits == old(ctx.logits)
      decreases nPast' - gaI'
    {
      nPast', gaI' := ExtendOnce(ctx, nPast', gaI', gaN, gaW, tokens, i);
      i := i + 1;
    }
    if known {
      AllGrouped(ctx.cells, nPast', gaI', tokens, i, gaN, gaW);
    }
  }

  /** When the guard is false, all whole blocks have been grouped. */
  lemma AllGrouped(cells: seq<Cell>, nPast: int, gaI: int, tokens: seq<Token>, i: nat, gaN: nat, gaW: nat)
    requires gaN > 0 && gaW % gaN == 0 && gaW > 0
    requires Grouped(cells, nPast, gaI, tokens, i, gaN, gaW / gaN)
    requires nPast < gaI + gaW
    ensures i == |tokens| / gaW
  {
    var w := gaW / gaN;
    assert gaW == w * gaN;
    Ledger(i, gaN, w);
    Quotient(|tokens|, i, gaW);
    if i > 0 { Quotient(|tokens|, i - 1, gaW); }
  }

  /** `n_past` and `ga_i` after n passes. */
  function After(nPast: int, gaI: int, gaN: int, gaW: int, n: nat): (r: (int, int))
    requires gaN > 0
  {
    if n == 0 then (nPast, gaI)
    else
      var (p, i) := After(nPast, gaI, gaN, gaW, n - 1);
      (p - (gaW / gaN) * (gaN - 1), i + gaW / gaN)
  }

  /** A pass lowers n_past - ga_i by ga_w, whatever the sign of ga_w. */
  lemma {:induction false} DropsBy(nPast: int, gaI: int, gaN: int, gaW: int, n: nat)
    requires gaN > 0 && gaW % gaN == 0
    ensures var (p, i) := After(nPast, gaI, gaN, gaW, n);
            p - i == nPast - gaI - n * gaW
  {
    if n > 0 {
      DropsBy(nPast, gaI, gaN, gaW, n - 1);
      var w := gaW / gaN;
      assert gaW == w * gaN && w * (gaN - 1) + w == w * gaN;
      assert n * gaW == (n - 1) * gaW + gaW;
    }
  }

  /**
   The guard after n passes, for any `ga_w` the two assertions let through. It fails for
   some n exactly when `ga_w` is positive. Below 0 it holds for ever once it holds: the
   loop cannot be left. At 0 it holds for ever too, but the first pass already divides by
   `ga_w` (`ib`).
   */
  lemma Guard(nPast: int, gaI: int, gaN: int, gaW: int, n: nat)
    requires gaN > 0 && gaW % gaN == 0
    ensures var (p, i) := After(nPast, gaI, gaN, gaW, n);
            && (p >= i + gaW <==> nPast - gaI >= (n + 1) * gaW)
            && (gaW < 0 && nPast >= gaI + gaW ==> p >= i + gaW)
            && (gaW > 0 && n > nPast - gaI ==> p < i + gaW)
  {
    DropsBy(nPast, gaI, gaN, gaW, n);
    assert (n + 1) * gaW == n * gaW + gaW;
    if gaW > 0 {
      MulMonotone(n, 1, gaW);
    } else {
      MulMonotone(n, gaW, 0);
    }
  }
}
