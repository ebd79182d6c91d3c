/** The computer opponent of navy/game.py (class AI): it keeps the cells it
    may still shoot and the crossed cells of ships it has not sunk yet, and
    aims next to those crossed cells whenever there are any. */
module Ai {
  import opened Grid
  import opened Fleet

  /** The cells of xs, in order, whose state in m is s. */
  function Having(m: map<Pos, CellState>, xs: seq<Pos>, s: CellState): (r: seq<Pos>)
    ensures |r| <= |xs|
  {
    if xs == [] then []
    else
      var n := |xs| - 1;
      assert xs == xs[..n] + [xs[n]];
      Having(m, xs[..n], s) + (if xs[n] in m && m[xs[n]] == s then [xs[n]] else [])
  }

  lemma {:induction false} HavingMember(m: map<Pos, CellState>, xs: seq<Pos>, s: CellState, p: Pos)
    ensures p in Having(m, xs, s) <==> p in xs && p in m && m[p] == s
  {
    if xs != [] {
      var n := |xs| - 1;
      HavingMember(m, xs[..n], s, p);
      assert xs == xs[..n] + [xs[n]];
    }
  }

  /** The cells of xs, in order, whose state in m is anything but s. */
  function NotHaving(m: map<Pos, CellState>, xs: seq<Pos>, s: CellState): (r: seq<Pos>)
    ensures |r| <= |xs|
  {
    if xs == [] then []
    else
      var n := |xs| - 1;
      assert xs == xs[..n] + [xs[n]];
      NotHaving(m, xs[..n], s) + (if xs[n] in m && m[xs[n]] != s then [xs[n]] else [])
  }

  lemma {:induction false} NotHavingMember(m: map<Pos, CellState>, xs: seq<Pos>, s: CellState, p: Pos)
    ensures p in NotHaving(m, xs, s) <==> p in xs && p in m && m[p] != s
  {
    if xs != [] {
      var n := |xs| - 1;
      NotHavingMember(m, xs[..n], s, p);
      assert xs == xs[..n] + [xs[n]];
    }
  }

  /** The outcome of random.choice on a list of candidates: one of them, or
      failure when the list is empty (an IndexError, or in find_ship the
      NameError raised just before its exit(1)). */
  predicate Picked(r: Option<Pos>, candidates: seq<Pos>) {
    if candidates == [] then r == None else r.Some? && r.value in candidates
  }

  /** The offsets find_ship tries around a crossed cell, in its order. */
  const Sides: seq<(int, int)> := [(0, -1), (-1, 0), (1, 0), (0, 1)]

  /** The four cells find_ship tries around c. */
  function Neighbours(c: Pos): (r: seq<Pos>)
    ensures |r| == 4
    ensures forall q :: q in r <==> Orthogonal(c, q)
  {
    var r := [Shift(c, Sides[0]), Shift(c, Sides[1]), Shift(c, Sides[2]), Shift(c, Sides[3])];
    assert forall q :: Orthogonal(c, q) ==> q == r[0] || q == r[1] || q == r[2] || q == r[3];
    r
  }

  /** Python's ordering of a list of positions (list.sort on tuples). */
  predicate Sorted(xs: seq<Pos>) {
    forall i, j :: 0 <= i < j < |xs| ==> LexLe(xs[i], xs[j])
  }

  lemma SortedCons(h: Pos, rest: seq<Pos>)
    requires Sorted(rest) && forall y :: y in rest ==> LexLe(h, y)
    ensures Sorted([h] + rest)
  {
    var r := [h] + rest;
    forall i, j | 0 <= i < j < |r|
      ensures LexLe(r[i], r[j])
    {
      assert r[j] == rest[j - 1];
      if i > 0 {
        assert r[i] == rest[i - 1];
      }
    }
  }

  /** x inserted into the sorted list xs. */
  function Insert(x: Pos, xs: seq<Pos>): (r: seq<Pos>)
    requires Sorted(xs)
    ensures Sorted(r) && multiset(r) == multiset(xs) + multiset{x}
    ensures forall y :: y in r <==> y == x || y in xs
    ensures |r| == |xs| + 1
  {
    if xs == [] then [x]
    else if LexLe(x, xs[0]) then
      assert forall k :: 0 <= k < |xs| ==> LexLe(xs[0], xs[k]);
      SortedCons(x, xs);
      [x] + xs
    else
      var rest := Insert(x, xs[1..]);
      assert xs == [xs[0]] + xs[1..];
      assert forall k :: 0 < k < |xs| ==> LexLe(xs[0], xs[k]);
      SortedCons(xs[0], rest);
      assert multiset([xs[0]] + rest) == multiset{xs[0]} + multiset(rest);
      [xs[0]] + rest
  }

  /** The list sorted in Python's tuple order: a sorted permutation of xs. */
  function Sort(xs: seq<Pos>): (r: seq<Pos>)
    ensures Sorted(r) && multiset(r) == multiset(xs)
    ensures |r| == |xs|
  {
    if xs == [] then []
    else
      assert xs == [xs[0]] + xs[1..];
      Insert(xs[0], Sort(xs[1..]))
  }

  /** The two cells track_ship tries for the sorted crossed cells h: one step
      before the first and one step past the last, along the columns when
      the first and the last share their line, along the lines otherwise. */
  function Ends(h: seq<Pos>): seq<Pos>
    requires |h| >= 1
  {
    var lo := h[0];
    var hi := h[|h| - 1];
    if lo.0 == hi.0 then [(lo.0, lo.1 - 1), (hi.0, hi.1 + 1)]
    else [(lo.0 - 1, lo.1), (hi.0 + 1, hi.1)]
  }

  /** What track_ship does with the crossed cells `hits`: the list it leaves
      (`after`) and the target it returns (None for a failure). */
  predicate Tracked(m: map<Pos, CellState>, hits: seq<Pos>, after: seq<Pos>, r: Option<Pos>) {
    if |hits| == 1 then after == hits && Picked(r, Having(m, Neighbours(hits[0]), NoHit))
    else after == Sort(hits) && (hits == [] ==> r == None) &&
         (hits != [] ==> Picked(r, Having(m, Ends(after), NoHit)))
  }

  /** The first loop of AI.play: the crossed cells whose ship is not
      destroyed yet, in order. */
  method KeepUnsunk(m: map<Pos, CellState>, hits: seq<Pos>) returns (kept: seq<Pos>)
    requires forall p :: p in hits ==> p in m
    ensures kept == NotHaving(m, hits, ShipDestroyed)
  {
    kept := [];
    var k := 0;
    while k < |hits|
      invariant 0 <= k <= |hits|
      invariant kept == NotHaving(m, hits[..k], ShipDestroyed)
    {
      assert hits[..k + 1] == hits[..k] + [hits[k]];
      var pos := hits[k];
      if m[pos] != ShipDestroyed {
        kept := kept + [pos];
      }
      k := k + 1;
    }
    assert hits[..k] == hits;
  }

  /** The second loop of AI.play: the possibilities still unhit, and the
      struck ones that are crossed, each list in order. */
  method SortOut(m: map<Pos, CellState>, cells: seq<Pos>) returns (open: seq<Pos>, crossed: seq<Pos>)
    requires forall p :: p in cells ==> p in m
    ensures open == Having(m, cells, NoHit)
    ensures crossed == Having(m, cells, Cross)
  {
    open := [];
    crossed := [];
    var k := 0;
    while k < |cells|
      invariant 0 <= k <= |cells|
      invariant open == Having(m, cells[..k], NoHit)
      invariant crossed == Having(m, cells[..k], Cross)
    {
      assert cells[..k + 1] == cells[..k] + [cells[k]];
      var pos := cells[k];
      if m[pos] != NoHit {
        if m[pos] == Cross {
          crossed := crossed + [pos];
        }
      } else {
        open := open + [pos];
      }
      k := k + 1;
    }
    assert cells[..k] == cells;
  }

  class AI {
    /** Crossed cells of ships not yet destroyed. */
    var boxHitted: seq<Pos>
    /** Cells still worth shooting at. */
    var possibilities: seq<Pos>

    ghost predicate Valid()
      reads this
    {
      (forall p :: p in boxHitted ==> InGrid(p)) &&
      (forall p :: p in possibilities ==> InGrid(p))
    }

    /** No crossed cell yet; every cell of the grid, line by line, is a possibility. */
    constructor ()
      ensures Valid() && boxHitted == []
      ensures |possibilities| == NbLinesBoxes * NbColumnsBoxes
      ensures forall k :: 0 <= k < |possibilities| ==>
                possibilities[k] == (k / NbColumnsBoxes, k % NbColumnsBoxes)
    {
      boxHitted := [];
      var cells: seq<Pos> := [];
      var i := 0;
      while i < NbLinesBoxes
        invariant 0 <= i <= NbLinesBoxes
        invariant |cells| == i * NbColumnsBoxes
        invariant forall k :: 0 <= k < |cells| ==> cells[k] == (k / NbColumnsBoxes, k % NbColumnsBoxes)
      {
        var j := 0;
        while j < NbColumnsBoxes
          invariant 0 <= j <= NbColumnsBoxes
          invariant |cells| == i * NbColumnsBoxes + j
          invariant forall k :: 0 <= k < |cells| ==> cells[k] == (k / NbColumnsBoxes, k % NbColumnsBoxes)
        {
          cells := cells + [(i, j)];
          j := j + 1;
        }
        i := i + 1;
      }
      possibilities := cells;
    }

    /** AI.find_ship: one of the unhit cells of the board beside (line, column),
        or a failure when there is none. Changes nothing. */
    method FindShip(m: map<Pos, CellState>, line: int, column: int) returns (r: Option<Pos>)
      ensures Picked(r, Having(m, Neighbours((line, column)), NoHit))
    {
      var around := Neighbours((line, column));
      var potential: seq<Pos> := [];
      var t := 0;
      while t < |around|
        invariant 0 <= t <= |around|
        invariant potential == Having(m, around[..t], NoHit)
      {
        assert around[..t + 1] == around[..t] + [around[t]];
        var pos := around[t];
        if pos in m && m[pos] == NoHit {
          potential := potential + [pos];
        }
        t := t + 1;
      }
      assert around[..t] == around;
      if potential == [] {
        r := None;
      } else {
        assert potential[0] in potential;
        var pos :| pos in potential;
        r := Some(pos);
      }
    }

    /** AI.track_ship: aim next to the crossed cells (sorting them when there
        are several). */
    method TrackShip(m: map<Pos, CellState>) returns (r: Option<Pos>)
      modifies this
      ensures possibilities == old(possibilities)
      ensures Tracked(m, old(boxHitted), boxHitted, r)
    {
      if |boxHitted| == 1 {
        r := FindShip(m, boxHitted[0].0, boxHitted[0].1);
        return;
      }
      boxHitted := Sort(boxHitted);
      if boxHitted == [] {
        r := None;
        return;
      }
      var ends := Ends(boxHitted);
      var potential: seq<Pos> := [];
      var t := 0;
      while t < |ends|
        invariant 0 <= t <= |ends|
        invariant potential == Having(m, ends[..t], NoHit)
      {
        assert ends[..t + 1] == ends[..t] + [ends[t]];
        var pos := ends[t];
        if pos in m && m[pos] == NoHit {
          potential := potential + [pos];
        }
        t := t + 1;
      }
      assert ends[..t] == ends;
      if potential == [] {
        r := None;
      } else {
        assert potential[0] in potential;
        var pos :| pos in potential;
        r := Some(pos);
      }
    }

    /** The first half of AI.play: forget the crossed cells of sunk ships,
        and move every struck possibility out of the list, keeping the
        crossed ones as crossed cells to follow. */
    method Resync(m: map<Pos, CellState>)
      requires Valid() && IsGridMap(m)
      modifies this
      ensures Valid()
      ensures boxHitted == NotHaving(m, old(boxHitted), ShipDestroyed) + Having(m, old(possibilities), Cross)
      ensures possibilities == Having(m, old(possibilities), NoHit)
    {
      var kept := KeepUnsunk(m, boxHitted);
      var open, crossed := SortOut(m, possibilities);
      forall p | p in kept + crossed + open
        ensures InGrid(p)
      {
        NotHavingMember(m, boxHitted, ShipDestroyed, p);
        HavingMember(m, possibilities, Cross, p);
        HavingMember(m, possibilities, NoHit, p);
      }
      boxHitted := kept + crossed;
      possibilities := open;
    }

    /** The outcome of AI.play on the board m: the lists resynchronised
        with m, then the target r picked among the possibilities when no
        crossed cell is left to follow, or by track_ship otherwise. */
    twostate predicate Played(m: map<Pos, CellState>, new r: Option<Pos>)
      reads this
    {
      && possibilities == Having(m, old(possibilities), NoHit)
      && var hits := NotHaving(m, old(boxHitted), ShipDestroyed) + Having(m, old(possibilities), Cross);
         if hits == [] then boxHitted == [] && Picked(r, possibilities)
         else Tracked(m, hits, boxHitted, r)
    }

    /** AI.play: resynchronise with the board, then follow the crossed cells
        if there are any, or shoot any remaining possibility. */
    method Play(m: map<Pos, CellState>) returns (r: Option<Pos>)
      requires Valid() && IsGridMap(m)
      modifies this
      ensures Valid() && Played(m, r)
      ensures r.Some? ==> InGrid(r.value) && m[r.value] == NoHit
    {
      Resync(m);
      if boxHitted != [] {
        ghost var hits := boxHitted;
        r := TrackShip(m);
        SortKeepsCells(hits, boxHitted);
        if r.Some? {
          TargetIsOpen(m, hits, boxHitted, r);
        }
      } else if possibilities == [] {
        r := None;
      } else {
        assert possibilities[0] in possibilities;
        var pos :| pos in possibilities;
        HavingMember(m, old(possibilities), NoHit, pos);
        r := Some(pos);
      }
    }
  }

  /** After the resynchronisation of AI.play every possibility is still
      unhit, no followed cell belongs to a destroyed ship, and each crossed
      possibility is now followed. */
  lemma ResyncedLists(m: map<Pos, CellState>, hits: seq<Pos>, cells: seq<Pos>)
    ensures forall p :: p in Having(m, cells, NoHit) ==> p in m && m[p] == NoHit
    ensures forall p :: p in NotHaving(m, hits, ShipDestroyed) + Having(m, cells, Cross) ==>
              p in m && m[p] != ShipDestroyed
    ensures forall p :: p in cells && p in m && m[p] == Cross ==>
              p in NotHaving(m, hits, ShipDestroyed) + Having(m, cells, Cross)
  {
    forall p
      ensures p in Having(m, cells, NoHit) ==> p in m && m[p] == NoHit
      ensures p in NotHaving(m, hits, ShipDestroyed) + Having(m, cells, Cross) <==>
              (p in hits && p in m && m[p] != ShipDestroyed) || (p in cells && p in m && m[p] == Cross)
    {
      HavingMember(m, cells, NoHit, p);
      HavingMember(m, cells, Cross, p);
      NotHavingMember(m, hits, ShipDestroyed, p);
    }
  }

  /** After TrackShip the crossed cells are still the same cells. */
  lemma SortKeepsCells(hits: seq<Pos>, after: seq<Pos>)
    requires |hits| != 1 ==> after == Sort(hits)
    requires |hits| == 1 ==> after == hits
    ensures forall p :: p in after <==> p in hits
  {
    if |hits| != 1 {
      forall p
        ensures p in after <==> p in hits
      {
        assert p in after <==> p in multiset(after);
        assert p in hits <==> p in multiset(hits);
      }
    }
  }

  /** find_ship aims at a side neighbour of the crossed cell that is still
      unhit, and fails exactly when no side neighbour is an unhit cell of the board. */
  lemma FindShipTarget(m: map<Pos, CellState>, c: Pos, r: Option<Pos>)
    requires Picked(r, Having(m, Neighbours(c), NoHit))
    ensures r.Some? ==> Orthogonal(c, r.value) && r.value in m && m[r.value] == NoHit
    ensures r.None? <==> forall q :: Orthogonal(c, q) ==> q !in m || m[q] != NoHit
  {
    PickedOpen(m, Neighbours(c), r);
  }

  /** A pick among the unhit cells of xs is an unhit cell of xs, and there
      is no pick exactly when no cell of xs is an unhit cell of the board. */
  lemma PickedOpen(m: map<Pos, CellState>, xs: seq<Pos>, r: Option<Pos>)
    requires Picked(r, Having(m, xs, NoHit))
    ensures r.Some? ==> r.value in xs && r.value in m && m[r.value] == NoHit
    ensures r.None? <==> forall q :: q in xs ==> q !in m || m[q] != NoHit
  {
    var cands := Having(m, xs, NoHit);
    if r.Some? {
      HavingMember(m, xs, NoHit, r.value);
    }
    forall q | q in xs && q in m && m[q] == NoHit
      ensures q in cands
    {
      HavingMember(m, xs, NoHit, q);
    }
    if cands != [] {
      HavingMember(m, xs, NoHit, cands[0]);
    }
  }

  /** In a sorted permutation of hits, the first element is the smallest of
      hits and the last the largest, in Python's tuple order. */
  lemma SortedEnds(hits: seq<Pos>, after: seq<Pos>)
    requires hits != [] && after == Sort(hits)
    ensures after[0] in hits && after[|after| - 1] in hits
    ensures forall h :: h in hits ==> LexLe(after[0], h) && LexLe(h, after[|after| - 1])
  {
    assert after[0] in multiset(after) && after[|after| - 1] in multiset(after);
    forall h | h in hits
      ensures LexLe(after[0], h) && LexLe(h, after[|after| - 1])
    {
      assert h in multiset(hits);
      var k :| 0 <= k < |after| && after[k] == h;
    }
  }

  /** With several crossed cells, track_ship aims one step before the
      smallest of them (lo) or one step past the largest (hi), along the
      columns when those two share a line and along the lines otherwise, at
      a cell that is still unhit; it fails exactly when neither of the two is. */
  lemma TrackShipTarget(m: map<Pos, CellState>, hits: seq<Pos>, after: seq<Pos>, r: Option<Pos>, lo: Pos, hi: Pos)
    requires |hits| >= 2 && Tracked(m, hits, after, r)
    requires lo in hits && hi in hits && forall h :: h in hits ==> LexLe(lo, h) && LexLe(h, hi)
    ensures var ends := if lo.0 == hi.0 then [(lo.0, lo.1 - 1), (hi.0, hi.1 + 1)]
                        else [(lo.0 - 1, lo.1), (hi.0 + 1, hi.1)];
            (r.Some? ==> r.value in ends && r.value in m && m[r.value] == NoHit) &&
            (r.None? <==> forall q :: q in ends ==> q !in m || m[q] != NoHit)
  {
    SortedEnds(hits, after);
    LexAntisymmetric(after[0], lo);
    LexAntisymmetric(after[|after| - 1], hi);
    PickedOpen(m, Ends(after), r);
  }

  lemma LexAntisymmetric(a: Pos, b: Pos)
    requires LexLe(a, b) && LexLe(b, a)
    ensures a == b
  {
  }

  /** Every shot of the computer is at an unhit cell of the board, or it fails. */
  lemma TargetIsOpen(m: map<Pos, CellState>, hits: seq<Pos>, after: seq<Pos>, r: Option<Pos>)
    requires IsGridMap(m) && Tracked(m, hits, after, r) && r.Some?
    ensures InGrid(r.value) && m[r.value] == NoHit
  {
    if |hits| == 1 {
      FindShipTarget(m, hits[0], r);
    } else {
      SortedEnds(hits, after);
      TrackShipTarget(m, hits, after, r, after[0], after[|after| - 1]);
    }
  }
}
