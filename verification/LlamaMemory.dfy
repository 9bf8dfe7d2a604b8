/**
 The part of a llama.cpp context that a completion can see from outside: which
 token sits at which position, and which cells the last logits were computed
 from.  The sequence operations follow the comments of `include/llama.h` and the
 bodies in `src/llama-kv-cache.cpp`; there is one sequence, so every cell belongs
 to it.
 */
module LlamaMemory {

  type Token = int

  datatype Cell = Cell(token: Token, pos: nat)  // an empty cell has position -1 and is simply absent here

  /** The cells of `tokens` laid out without gaps from position 0. */
  function Place(tokens: seq<Token>): (cells: seq<Cell>)
    ensures |cells| == |tokens|
    ensures forall i :: 0 <= i < |tokens| ==> cells[i] == Cell(tokens[i], i)
  {
    PlaceFrom(tokens, 0)
  }

  function PlaceFrom(tokens: seq<Token>, start: nat): (cells: seq<Cell>)
    ensures |cells| == |tokens|
    ensures forall i :: 0 <= i < |tokens| ==> cells[i] == Cell(tokens[i], start + i)
  {
    seq(|tokens|, i requires 0 <= i < |tokens| => Cell(tokens[i], start + i))
  }

  /** Position `pos` is in `[p0, p1)`; a negative bound is open. */
  predicate InSpan(pos: int, p0: int, p1: int) {
    (p0 < 0 || p0 <= pos) && (p1 < 0 || pos < p1)
  }

  /** `llama_memory_seq_rm`: drop the cells in the span. */
  function RemoveSpan(cells: seq<Cell>, p0: int, p1: int): seq<Cell> {
    if cells == [] then []
    else
      var rest := RemoveSpan(cells[1..], p0, p1);
      if InSpan(cells[0].pos, p0, p1) then rest else [cells[0]] + rest
  }

  /** `llama_memory_seq_add`: move the span; a cell pushed below 0 is freed. */
  function AddSpan(cells: seq<Cell>, p0: int, p1: int, delta: int): seq<Cell> {
    if cells == [] then []
    else
      var rest := AddSpan(cells[1..], p0, p1, delta);
      var c := cells[0];
      if !InSpan(c.pos, p0, p1) then [c] + rest
      else if c.pos + delta < 0 then rest
      else [Cell(c.token, c.pos + delta)] + rest
  }

  /** `llama_memory_seq_div`: divide the positions of the span. */
  function DivSpan(cells: seq<Cell>, p0: int, p1: int, d: int): (r: seq<Cell>)
    requires d > 0
    ensures |r| == |cells|
  {
    if cells == [] then []
    else
      var c := cells[0];
      [if InSpan(c.pos, p0, p1) then Cell(c.token, c.pos / d) else c] + DivSpan(cells[1..], p0, p1, d)
  }

  /** One past the largest position, 0 when there is no cell. */
  function NextPos(cells: seq<Cell>): (n: nat)
    ensures forall c :: c in cells ==> c.pos < n
    ensures n == 0 || exists c :: c in cells && c.pos == n - 1
  {
    if cells == [] then 0
    else
      var m := NextPos(cells[..|cells| - 1]);
      var last := cells[|cells| - 1];
      assert forall c :: c in cells <==> c == last || c in cells[..|cells| - 1];
      if last.pos + 1 > m then last.pos + 1 else m
  }

  // ----- what the operations do to sequences given index by index

  lemma {:induction false} RemoveSpanAppend(a: seq<Cell>, b: seq<Cell>, p0: int, p1: int)
    ensures RemoveSpan(a + b, p0, p1) == RemoveSpan(a, p0, p1) + RemoveSpan(b, p0, p1)
  {
    if a == [] {
      assert a + b == b;
    } else {
      assert (a + b)[1..] == a[1..] + b;
      RemoveSpanAppend(a[1..], b, p0, p1);
    }
  }

  lemma {:induction false} RemoveSpanKeeps(cells: seq<Cell>, p0: int, p1: int)
    requires forall c :: c in cells ==> !InSpan(c.pos, p0, p1)
    ensures RemoveSpan(cells, p0, p1) == cells
  {
    if cells != [] {
      RemoveSpanKeeps(cells[1..], p0, p1);
      assert cells == [cells[0]] + cells[1..];
    }
  }

  lemma {:induction false} RemoveSpanDrops(cells: seq<Cell>, p0: int, p1: int)
    requires forall c :: c in cells ==> InSpan(c.pos, p0, p1)
    ensures RemoveSpan(cells, p0, p1) == []
  {
    if cells != [] {
      RemoveSpanDrops(cells[1..], p0, p1);
    }
  }

  lemma {:induction false} AddSpanAt(cells: seq<Cell>, p0: int, p1: int, delta: int)
    requires forall c :: c in cells && InSpan(c.pos, p0, p1) ==> c.pos + delta >= 0
    ensures |AddSpan(cells, p0, p1, delta)| == |cells|
    ensures forall i :: 0 <= i < |cells| ==>
              AddSpan(cells, p0, p1, delta)[i] ==
              if InSpan(cells[i].pos, p0, p1) then Cell(cells[i].token, cells[i].pos + delta) else cells[i]
  {
    if cells != [] {
      AddSpanAt(cells[1..], p0, p1, delta);
    }
  }

  /** A downward shift frees exactly the cells of the span that lie below -delta, and moves the rest of the span. */
  lemma {:induction false} AddSpanFrees(cells: seq<Cell>, p0: int, p1: int, delta: int)
    requires delta < 0
    ensures var kept := RemoveSpan(cells, p0, if p1 < 0 || -delta < p1 then -delta else p1);
            var moved := AddSpan(cells, p0, p1, delta);
            && |moved| == |kept|
            && forall i :: 0 <= i < |kept| ==>
                 if InSpan(kept[i].pos, p0, p1) then kept[i].pos + delta >= 0 && moved[i] == Cell(kept[i].token, kept[i].pos + delta)
                 else moved[i] == kept[i]
  {
    if cells != [] {
      AddSpanFrees(cells[1..], p0, p1, delta);
    }
  }

  lemma {:induction false} DivSpanAt(cells: seq<Cell>, p0: int, p1: int, d: int)
    requires d > 0
    ensures forall i :: 0 <= i < |cells| ==>
              DivSpan(cells, p0, p1, d)[i] ==
              if InSpan(cells[i].pos, p0, p1) then Cell(cells[i].token, cells[i].pos / d) else cells[i]
  {
    if cells != [] {
      DivSpanAt(cells[1..], p0, p1, d);
    }
  }

  lemma {:induction false} NextPosPlace(tokens: seq<Token>)
    ensures NextPos(Place(tokens)) == |tokens|
  {
    var cells := Place(tokens);
    if tokens != [] {
      assert cells[|cells| - 1] in cells;
    }
  }

  /** `llama_memory_seq_rm(mem, -1, n, -1)` on a gapless cache keeps its first n tokens. */
  lemma KeepPrefix(tokens: seq<Token>, n: nat)
    requires n <= |tokens|
    ensures RemoveSpan(Place(tokens), n, -1) == Place(tokens[..n])
  {
    var cells := Place(tokens);
    RemoveSpanAppend(cells[..n], cells[n..], n, -1);
    RemoveSpanKeeps(cells[..n], n, -1);
    RemoveSpanDrops(cells[n..], n, -1);
    assert cells == cells[..n] + cells[n..];
    assert cells[..n] == Place(tokens[..n]);
  }

  /** Removing [keep, keep + discard) and sliding the tail down closes the hole exactly. */
  lemma CloseHole(tokens: seq<Token>, keep: int, discard: int)
    requires 0 <= keep && 0 <= discard && keep + discard <= |tokens|
    ensures AddSpan(RemoveSpan(Place(tokens), keep, keep + discard), keep + discard, |tokens|, -discard)
            == Place(tokens[..keep] + tokens[keep + discard..])
  {
    var cells := Place(tokens);
    RemoveMiddle(cells[..keep], cells[keep..keep + discard], cells[keep + discard..], keep, keep + discard);
    assert cells[..keep] + cells[keep..keep + discard] + cells[keep + discard..] == cells;
    SlideDown(tokens, RemoveSpan(cells, keep, keep + discard), keep, discard);
  }

  lemma RemoveMiddle(a: seq<Cell>, b: seq<Cell>, c: seq<Cell>, p0: int, p1: int)
    requires forall x :: x in a ==> !InSpan(x.pos, p0, p1)
    requires forall x :: x in b ==> InSpan(x.pos, p0, p1)
    requires forall x :: x in c ==> !InSpan(x.pos, p0, p1)
    ensures RemoveSpan(a + b + c, p0, p1) == a + c
  {
    hide RemoveSpan;
    RemoveSpanAppend(a + b, c, p0, p1);
    RemoveSpanAppend(a, b, p0, p1);
    RemoveSpanKeeps(a, p0, p1);
    RemoveSpanDrops(b, p0, p1);
    RemoveSpanKeeps(c, p0, p1);
    assert a + [] == a;
  }

  lemma SlideDown(tokens: seq<Token>, kept: seq<Cell>, keep: int, discard: int)
    requires 0 <= keep && 0 <= discard && keep + discard <= |tokens|
    requires kept == Place(tokens)[..keep] + Place(tokens)[keep + discard..]
    ensures AddSpan(kept, keep + discard, |tokens|, -discard) == Place(tokens[..keep] + tokens[keep + discard..])
  {
    AddSpanAt(kept, keep + discard, |tokens|, -discard);
  }

  lemma PlaceAppend(a: seq<Token>, b: seq<Token>)
    ensures Place(a) + PlaceFrom(b, |a|) == Place(a + b)
  {
  }

  /** What `llama_state_save_file` writes: the token list and the cells.  Logits are not written. */
  datatype SessionFile = SessionFile(tokens: seq<Token>, cells: seq<Cell>)

  /** The file's two parts tell the same story. */
  predicate Coherent(f: SessionFile) {
    f.cells == Place(f.tokens)
  }

  /** The `llama_context` that stays alive between calls. */
  class Context {
    const size: nat            // n_ctx
    var cells: seq<Cell>
    var logits: seq<Cell>      // the cells visible to the last decoded token; [] before the first decode

    constructor (size: nat)
      ensures this.size == size && cells == [] && logits == []
    {
      this.size := size;
      cells, logits := [], [];
    }

    method Clear()
      modifies this
      ensures cells == [] && logits == old(logits)
    {
      cells := [];
    }

    method SeqRm(p0: int, p1: int)
      modifies this
      ensures cells == RemoveSpan(old(cells), p0, p1) && logits == old(logits)
    {
      cells := RemoveSpan(cells, p0, p1);
    }

    method SeqAdd(p0: int, p1: int, delta: int)
      modifies this
      ensures cells == AddSpan(old(cells), p0, p1, delta) && logits == old(logits)
    {
      cells := AddSpan(cells, p0, p1, delta);
    }

    method SeqDiv(p0: int, p1: int, d: int)
      requires d > 0
      modifies this
      ensures cells == DivSpan(old(cells), p0, p1, d) && logits == old(logits)
    {
      cells := DivSpan(cells, p0, p1, d);
    }

    /**
     `llama_decode(ctx, llama_batch_get_one(tokens))`: positions are filled in from
     the largest one present; it fails when no slot is left.
     */
    method Decode(tokens: seq<Token>) returns (ok: bool)
      modifies this
      ensures ok == (|old(cells)| + |tokens| <= size)
      ensures ok ==> cells == old(cells) + PlaceFrom(tokens, NextPos(old(cells))) && logits == cells
      ensures !ok ==> cells == old(cells) && logits == old(logits)
    {
      ok := |cells| + |tokens| <= size;
      if ok {
        cells := cells + PlaceFrom(tokens, NextPos(cells));
        logits := cells;
      }
    }

    method Load(f: SessionFile)
      modifies this
      ensures cells == f.cells && logits == old(logits)
    {
      cells := f.cells;
    }

    /** The platform undoes what a trapped call did. */
    method RollBack(cells: seq<Cell>, logits: seq<Cell>)
      modifies this
      ensures this.cells == cells && this.logits == logits
    {
      this.cells, this.logits := cells, logits;
    }
  }
}
