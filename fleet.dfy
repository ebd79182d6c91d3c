/** The battle boards of navy/game.py: a per-cell state map, the ships
    placed on it, and how an attack on one cell is resolved. */
module Fleet {
  import opened Grid

  /** Navy.BOX_NO_HIT, BOX_HATCH, BOX_CROSS and BOX_SHIP_DESTROYED (0 to 3). */
  datatype CellState = NoHit | Hatch | Cross | ShipDestroyed

  /** The two images set_box_hit accepts, "hatch" and "cross". */
  datatype HitImage = HatchImage | CrossImage {
    function State(): CellState {
      match this
      case HatchImage => Hatch
      case CrossImage => Cross
    }
  }

  /** A ship as its setup describes it: name, listed positions, orientation. */
  datatype Ship = Ship(name: string, boxes: seq<Pos>, orient: Orient) {
    /** p is one of the ship's boxes_covered: a listed position that is a box of the board. */
    predicate Covers(p: Pos) {
      p in boxes && InGrid(p)
    }

    /** Ship.destroyed: every covered box has been disabled (struck). */
    predicate Destroyed(disabled: set<Pos>) {
      forall p :: p in boxes && InGrid(p) ==> p in disabled
    }
  }

  /** One call of player.send(key[, value]); the value of "ship_destroyed" is the ship's setup. */
  datatype Message = Message(key: string, ship: Option<Ship>)

  /** The offsets hit_all_boxes_around_ship visits, in its order. */
  const Around: seq<(int, int)> := [(-1, -1), (0, -1), (1, -1), (-1, 0), (1, 0), (-1, 1), (0, 1), (1, 1)]

  /** The moat of a ship: every cell of the grid touching one of its covered cells. */
  function Moat(s: Ship): set<Pos> {
    set i, j | 0 <= i < NbLinesBoxes && 0 <= j < NbColumnsBoxes &&
               (exists c :: c in s.boxes && InGrid(c) && Touches(c, (i, j))) :: (i, j)
  }

  /** The board after a ship's destruction is revealed: its cells destroyed,
      the still-unhit cells of its moat hatched, every other cell as it was. */
  function Revealed(m: map<Pos, CellState>, disabled: set<Pos>, s: Ship): map<Pos, CellState> {
    map p | p in m :: if s.Covers(p) then ShipDestroyed
                      else if p in Moat(s) && p !in disabled then Hatch
                      else m[p]
  }

  /** One cell of the board once the cells in `done` have been processed by
      hit_all_boxes_around_ship (m and disabled are the board before it). */
  function RevealedAt(m: map<Pos, CellState>, disabled: set<Pos>, done: seq<Pos>, p: Pos): CellState
    requires p in m
  {
    if p in done then ShipDestroyed
    else if p in MoatOf(done) && p !in disabled then Hatch
    else m[p]
  }

  /** The board after every cell of `cells` that was still normal (not in
      disabled) is hatched. */
  function Hatched(m: map<Pos, CellState>, disabled: set<Pos>, cells: set<Pos>): map<Pos, CellState> {
    map p | p in m :: if p in cells && p !in disabled then Hatch else m[p]
  }

  /** One pass of the inner loop of hit_all_boxes_around_ship: the offset
      cell q is hatched iff it is a normal box of the grid. */
  lemma HatchedStep(m: map<Pos, CellState>, disabled: set<Pos>, cells: set<Pos>, q: Pos,
                    before: map<Pos, CellState>, after: map<Pos, CellState>)
    requires forall p :: p in cells ==> InGrid(p)
    requires IsGridMap(m) && before == Hatched(m, disabled, cells)
    requires after == if InGrid(q) && q !in disabled + cells then before[q := Hatch] else before
    ensures after == Hatched(m, disabled, cells + (if InGrid(q) then {q} else {}))
  {
  }

  /** The whole board once the cells in `done` have been processed. */
  function RevealedUpTo(m: map<Pos, CellState>, disabled: set<Pos>, done: seq<Pos>): map<Pos, CellState> {
    map p | p in m :: RevealedAt(m, disabled, done, p)
  }

  /** The in-grid cells reached from c by the given offsets (the inner loop of
      hit_all_boxes_around_ship, one offset at a time). */
  function Reached(c: Pos, offsets: seq<(int, int)>): set<Pos> {
    if offsets == [] then {}
    else
      var q := Shift(c, offsets[|offsets| - 1]);
      Reached(c, offsets[..|offsets| - 1]) + (if InGrid(q) then {q} else {})
  }

  /** The moat as the outer loop of hit_all_boxes_around_ship builds it, one ship cell at a time. */
  function MoatOf(cells: seq<Pos>): set<Pos> {
    if cells == [] then {}
    else
      var c := cells[|cells| - 1];
      MoatOf(cells[..|cells| - 1]) + (if InGrid(c) then Reached(c, Around) else {})
  }

  lemma {:induction false} ReachedMember(c: Pos, offsets: seq<(int, int)>, q: Pos)
    ensures q in Reached(c, offsets) <==>
            InGrid(q) && exists t :: 0 <= t < |offsets| && q == Shift(c, offsets[t])
  {
    if offsets != [] {
      var n := |offsets| - 1;
      var front := offsets[..n];
      ReachedMember(c, front, q);
      if q in Reached(c, offsets) && q in Reached(c, front) {
        var t :| 0 <= t < |front| && q == Shift(c, front[t]);
        assert offsets[t] == front[t];
      }
      if InGrid(q) && exists t :: 0 <= t < |offsets| && q == Shift(c, offsets[t]) {
        var t :| 0 <= t < |offsets| && q == Shift(c, offsets[t]);
        if t < n {
          assert front[t] == offsets[t];
        }
      }
    }
  }

  /** The eight offsets reach exactly the in-grid cells touching c. */
  lemma ReachedAround(c: Pos, q: Pos)
    ensures q in Reached(c, Around) <==> InGrid(q) && Touches(c, q)
  {
    ReachedMember(c, Around, q);
    if InGrid(q) && Touches(c, q) {
      var d := (q.0 - c.0, q.1 - c.1);
      var t := if d == (-1, -1) then 0 else if d == (0, -1) then 1 else if d == (1, -1) then 2
               else if d == (-1, 0) then 3 else if d == (1, 0) then 4 else if d == (-1, 1) then 5
               else if d == (0, 1) then 6 else 7;
      assert q == Shift(c, Around[t]);
    }
    if q in Reached(c, Around) {
      var t :| 0 <= t < |Around| && q == Shift(c, Around[t]);
      assert t == 0 || t == 1 || t == 2 || t == 3 || t == 4 || t == 5 || t == 6 || t == 7;
    }
  }

  lemma {:induction false} MoatOfMember(cells: seq<Pos>, q: Pos)
    ensures q in MoatOf(cells) <==>
            InGrid(q) && exists c :: c in cells && InGrid(c) && Touches(c, q)
  {
    if cells != [] {
      var n := |cells| - 1;
      var front := cells[..n];
      var last := cells[n];
      MoatOfMember(front, q);
      ReachedAround(last, q);
      assert cells == front + [last];
      if InGrid(q) && exists c :: c in cells && InGrid(c) && Touches(c, q) {
        var c :| c in cells && InGrid(c) && Touches(c, q);
        if c != last {
          assert c in front;
        }
      }
    }
  }

  /** The loop's moat is the moat: a cell is in it iff it is in the grid and touches a covered cell. */
  lemma MoatOfShip(s: Ship)
    ensures MoatOf(s.boxes) == Moat(s)
  {
    forall q | true
      ensures q in MoatOf(s.boxes) <==> q in Moat(s)
    {
      MoatOfMember(s.boxes, q);
    }
  }

  /** A cell outside the grid adds nothing to the moat. */
  lemma MoatOfSkip(done: seq<Pos>, c: Pos)
    requires !InGrid(c)
    ensures MoatOf(done + [c]) == MoatOf(done)
  {
    assert (done + [c])[..|done|] == done;
  }

  /** One pass of the outer loop of hit_all_boxes_around_ship: processing the
      (disabled) in-grid ship cell c extends the revealed prefix by c. */
  lemma RevealStep(m: map<Pos, CellState>, disabled: set<Pos>, done: seq<Pos>, c: Pos,
                   before: map<Pos, CellState>, after: map<Pos, CellState>)
    requires IsGridMap(m) && IsGridMap(before) && IsGridMap(after) && InGrid(c) && c in disabled
    requires forall q :: q in done && InGrid(q) ==> q in disabled
    requires before == RevealedUpTo(m, disabled, done)
    requires after == Hatched(before[c := ShipDestroyed], disabled + MoatOf(done), Reached(c, Around))
    ensures MoatOf(done + [c]) == MoatOf(done) + Reached(c, Around)
    ensures after == RevealedUpTo(m, disabled, done + [c])
  {
    assert (done + [c])[..|done|] == done;
    forall p | p in after
      ensures after[p] == RevealedAt(m, disabled, done + [c], p)
    {
      assert p in done + [c] <==> p in done || p == c;
    }
  }

  /** Once every cell of the ship is processed, the board is Revealed. */
  lemma RevealedAtEnd(m: map<Pos, CellState>, disabled: set<Pos>, s: Ship, result: map<Pos, CellState>)
    requires IsGridMap(m)
    requires result == RevealedUpTo(m, disabled, s.boxes)
    ensures result == Revealed(m, disabled, s)
    ensures MoatOf(s.boxes) == Moat(s)
  {
    MoatOfShip(s);
    forall p | p in result
      ensures result[p] == Revealed(m, disabled, s)[p]
    {
    }
  }

  /** Revealing a destroyed ship: its covered cells end BOX_SHIP_DESTROYED, the
      unhit cells of its moat BOX_HATCH, and every other cell keeps its state. */
  lemma RevealedCells(m: map<Pos, CellState>, disabled: set<Pos>, s: Ship)
    requires IsGridMap(m)
    ensures IsGridMap(Revealed(m, disabled, s))
    ensures forall p :: s.Covers(p) ==> Revealed(m, disabled, s)[p] == ShipDestroyed
    ensures forall p :: p in Moat(s) && !s.Covers(p) && p !in disabled ==> Revealed(m, disabled, s)[p] == Hatch
    ensures forall p :: InGrid(p) && !s.Covers(p) && (p !in Moat(s) || p in disabled) ==>
              Revealed(m, disabled, s)[p] == m[p]
  {
  }

  /** The first ship of the list covering pos (the one the source's scan stops at). */
  function FirstCovering(ships: seq<Ship>, pos: Pos): (k: nat)
    requires exists j :: 0 <= j < |ships| && ships[j].Covers(pos)
    ensures k < |ships| && ships[k].Covers(pos)
    ensures forall j :: 0 <= j < k ==> !ships[j].Covers(pos)
  {
    if ships[0].Covers(pos) then 0
    else
      var j :| 0 <= j < |ships| && ships[j].Covers(pos);
      assert ships[1..][j - 1] == ships[j];
      1 + FirstCovering(ships[1..], pos)
  }

  /** The map Navy.__init__ builds: one BOX_NO_HIT entry per cell, line by line. */
  method NewMap() returns (m: map<Pos, CellState>)
    ensures IsGridMap(m)
    ensures forall p :: p in m ==> m[p] == NoHit
  {
    m := map[];
    var i := 0;
    while i < NbLinesBoxes
      invariant 0 <= i <= NbLinesBoxes
      invariant forall p :: p in m <==> 0 <= p.0 < i && 0 <= p.1 < NbColumnsBoxes
      invariant forall p :: p in m ==> m[p] == NoHit
    {
      var j := 0;
      while j < NbColumnsBoxes
        invariant 0 <= j <= NbColumnsBoxes
        invariant forall p :: p in m <==>
                    (0 <= p.0 < i && 0 <= p.1 < NbColumnsBoxes) || (p.0 == i && 0 <= p.1 < j)
        invariant forall p :: p in m ==> m[p] == NoHit
      {
        m := m[(i, j) := NoHit];
        j := j + 1;
      }
      i := i + 1;
    }
  }

  /** Navy: the board of one side. `disabled` holds the boxes whose button
      state is DISABLED; the invariant ties it to the cells that are no longer
      BOX_NO_HIT. */
  class Navy {
    var cellMap: map<Pos, CellState>
    var disabled: set<Pos>
    var ships: seq<Ship>

    ghost predicate Valid()
      reads this
    {
      && IsGridMap(cellMap)
      && (forall p :: p in disabled ==> p in cellMap)
      && (forall p :: p in cellMap ==> (p in disabled <==> cellMap[p] != NoHit))
    }

    constructor (setup: seq<Ship>)
      ensures Valid()
      ensures ships == setup && disabled == {}
      ensures forall p :: p in cellMap ==> cellMap[p] == NoHit
    {
      var m := NewMap();
      cellMap := m;
      disabled := {};
      ships := setup;
    }

    /** Navy.destroyed: exactly ten ships, all of them destroyed. */
    predicate Destroyed()
      reads this
    {
      |ships| == 10 && forall k :: 0 <= k < |ships| ==> ships[k].Destroyed(disabled)
    }

    method SetBoxHit(pos: Pos, img: HitImage)
      requires Valid() && InGrid(pos)
      modifies this
      ensures Valid() && ships == old(ships)
      ensures disabled == old(disabled) + {pos}
      ensures cellMap == old(cellMap)[pos := img.State()]
    {
      disabled := disabled + {pos};
      cellMap := cellMap[pos := img.State()];
    }

    /** The inner loop of hit_all_boxes_around_ship: hatches every still-normal
        in-grid box among the eight around c. */
    method HatchAround(c: Pos)
      requires Valid()
      modifies this
      ensures Valid() && ships == old(ships)
      ensures disabled == old(disabled) + Reached(c, Around)
      ensures cellMap == Hatched(old(cellMap), old(disabled), Reached(c, Around))
    {
      var t := 0;
      while t < |Around|
        invariant 0 <= t <= |Around|
        invariant Valid() && ships == old(ships)
        invariant disabled == old(disabled) + Reached(c, Around[..t])
        invariant cellMap == Hatched(old(cellMap), old(disabled), Reached(c, Around[..t]))
      {
        var q := Shift(c, Around[t]);
        assert Around[..t + 1][..t] == Around[..t];
        ghost var before := cellMap;
        if InGrid(q) && q !in disabled {
          SetBoxHit(q, HatchImage);
        }
        HatchedStep(old(cellMap), old(disabled), Reached(c, Around[..t]), q, before, cellMap);
        t := t + 1;
      }
      assert Around[..|Around|] == Around;
    }

    /** `self.map[line][column] = Navy.BOX_SHIP_DESTROYED` on a struck box. */
    method MarkDestroyed(c: Pos)
      requires Valid() && c in disabled
      modifies this
      ensures Valid() && ships == old(ships) && disabled == old(disabled)
      ensures cellMap == old(cellMap)[c := ShipDestroyed]
    {
      cellMap := cellMap[c := ShipDestroyed];
    }

    /** One pass of the outer loop of hit_all_boxes_around_ship: the ship
        cell c, when in the grid, is marked destroyed and its surroundings
        hatched, extending the revealed prefix done by c. */
    method RevealBox(ghost m0: map<Pos, CellState>, ghost d0: set<Pos>, ghost done: seq<Pos>, c: Pos)
      requires Valid() && IsGridMap(m0)
      requires InGrid(c) ==> c in d0
      requires forall q :: q in done && InGrid(q) ==> q in d0
      requires disabled == d0 + MoatOf(done) && cellMap == RevealedUpTo(m0, d0, done)
      modifies this
      ensures Valid() && ships == old(ships)
      ensures disabled == d0 + MoatOf(done + [c]) && cellMap == RevealedUpTo(m0, d0, done + [c])
    {
      if InGrid(c) {
        ghost var before := cellMap;
        MarkDestroyed(c);
        HatchAround(c);
        RevealStep(m0, d0, done, c, before, cellMap);
      } else {
        MoatOfSkip(done, c);
        assert RevealedUpTo(m0, d0, done + [c]) == RevealedUpTo(m0, d0, done) by {
          forall p | p in m0
            ensures RevealedAt(m0, d0, done + [c], p) == RevealedAt(m0, d0, done, p)
          {
          }
        }
      }
    }

    /** Marks a destroyed ship's cells and hatches every still-normal box around them. */
    method HitAllBoxesAroundShip(ship: Ship)
      requires Valid()
      requires ship.Destroyed(disabled)
      modifies this
      ensures Valid() && ships == old(ships)
      ensures disabled == old(disabled) + Moat(ship)
      ensures cellMap == Revealed(old(cellMap), old(disabled), ship)
    {
      var k := 0;
      while k < |ship.boxes|
        invariant 0 <= k <= |ship.boxes|
        invariant Valid() && ships == old(ships)
        invariant disabled == old(disabled) + MoatOf(ship.boxes[..k])
        invariant forall p :: p in ship.boxes && InGrid(p) ==> p in old(disabled)
        invariant cellMap == RevealedUpTo(old(cellMap), old(disabled), ship.boxes[..k])
      {
        var c := ship.boxes[k];
        assert ship.boxes[..k + 1] == ship.boxes[..k] + [c];
        RevealBox(old(cellMap), old(disabled), ship.boxes[..k], c);
        k := k + 1;
      }
      assert ship.boxes[..|ship.boxes|] == ship.boxes;
      RevealedAtEnd(old(cellMap), old(disabled), ship, cellMap);
    }
  }

  /** PlayerNavy: the local player's own board; each resolved attack is reported to the peer. */
  class PlayerNavy {
    const navy: Navy
    var outbox: seq<Message>

    ghost predicate Valid()
      reads this, navy
    {
      navy.Valid()
    }

    constructor (setup: seq<Ship>)
      ensures Valid() && fresh(navy)
      ensures navy.ships == setup && navy.disabled == {} && outbox == []
      ensures forall p :: p in navy.cellMap ==> navy.cellMap[p] == NoHit
    {
      navy := new Navy(setup);
      outbox := [];
    }

    /** The outcome of box_hit on pos, which returned hitted: true iff some
        ship covers the box. A miss hatches the box and reports
        "attack_failed"; a hit crosses it and, when that was the last box
        of the first covering ship, reveals that ship and reports it sunk,
        otherwise reports "attack_success". */
    twostate predicate Attacked(pos: Pos, hitted: bool)
      reads this, navy
    {
      && navy.ships == old(navy.ships)
      && (hitted <==> exists k :: 0 <= k < |navy.ships| && navy.ships[k].Covers(pos))
      && (!hitted ==>
            && navy.cellMap == old(navy.cellMap)[pos := Hatch]
            && navy.disabled == old(navy.disabled) + {pos}
            && outbox == old(outbox) + [Message("attack_failed", None)])
      && (hitted ==>
            var ship := navy.ships[FirstCovering(navy.ships, pos)];
            var struck := old(navy.disabled) + {pos};
            var crossed := old(navy.cellMap)[pos := Cross];
            if ship.Destroyed(struck) then
              && navy.cellMap == Revealed(crossed, struck, ship)
              && navy.disabled == struck + Moat(ship)
              && outbox == old(outbox) + [Message("ship_destroyed", Some(ship))]
            else
              && navy.cellMap == crossed
              && navy.disabled == struck
              && outbox == old(outbox) + [Message("attack_success", None)])
    }

    /** PlayerNavy.box_hit. */
    method BoxHit(pos: Pos) returns (hitted: bool)
      requires Valid() && InGrid(pos)
      modifies this, navy
      ensures Valid() && Attacked(pos, hitted)
    {
      var k := 0;
      while k < |navy.ships|
        invariant 0 <= k <= |navy.ships|
        invariant forall j :: 0 <= j < k ==> !navy.ships[j].Covers(pos)
      {
        var ship := navy.ships[k];
        if ship.Covers(pos) {
          assert FirstCovering(navy.ships, pos) == k;
          navy.SetBoxHit(pos, CrossImage);
          if ship.Destroyed(navy.disabled) {
            navy.HitAllBoxesAroundShip(ship);
            outbox := outbox + [Message("ship_destroyed", Some(ship))];
          } else {
            outbox := outbox + [Message("attack_success", None)];
          }
          return true;
        }
        k := k + 1;
      }
      outbox := outbox + [Message("attack_failed", None)];
      navy.SetBoxHit(pos, HatchImage);
      return false;
    }
  }

  /** OppositeNavy against the AI: the AI's fleet stays hidden in `aiSetup`
      and a ship joins the visible `navy.ships` once it is sunk. `fleet` is
      the AI fleet as dealt. */
  class OppositeNavy {
    const navy: Navy
    var aiSetup: seq<Ship>
    ghost var fleet: multiset<Ship>

    ghost predicate Valid()
      reads this, navy
    {
      && navy.Valid()
      && multiset(navy.ships) + multiset(aiSetup) == fleet
      && forall k :: 0 <= k < |navy.ships| ==> navy.ships[k].Destroyed(navy.disabled)
    }

    constructor (setup: seq<Ship>)
      ensures Valid() && fresh(navy)
      ensures navy.ships == [] && navy.disabled == {} && aiSetup == setup
      ensures fleet == multiset(setup)
      ensures forall p :: p in navy.cellMap ==> navy.cellMap[p] == NoHit
    {
      navy := new Navy([]);
      aiSetup := setup;
      fleet := multiset(setup);
    }

    /** The outcome of ai_box_hit on pos, which returned hitted: true iff a
        hidden ship covers the box. A miss hatches the box; a hit crosses it
        and, when that was the last box of the first covering hidden ship,
        moves that ship from aiSetup to the visible ships and reveals it. */
    twostate predicate Attacked(pos: Pos, hitted: bool)
      reads this, navy
    {
      && fleet == old(fleet)
      && (hitted <==> exists k :: 0 <= k < |old(aiSetup)| && old(aiSetup)[k].Covers(pos))
      && (!hitted ==>
            && navy.cellMap == old(navy.cellMap)[pos := Hatch]
            && navy.disabled == old(navy.disabled) + {pos}
            && navy.ships == old(navy.ships) && aiSetup == old(aiSetup))
      && (hitted ==>
            var k := FirstCovering(old(aiSetup), pos);
            var ship := old(aiSetup)[k];
            var struck := old(navy.disabled) + {pos};
            var crossed := old(navy.cellMap)[pos := Cross];
            if ship.Destroyed(struck) then
              && navy.cellMap == Revealed(crossed, struck, ship)
              && navy.disabled == struck + Moat(ship)
              && aiSetup == old(aiSetup)[..k] + old(aiSetup)[k + 1..]
              && navy.ships == old(navy.ships) + [ship]
            else
              && navy.cellMap == crossed
              && navy.disabled == struck
              && aiSetup == old(aiSetup) && navy.ships == old(navy.ships))
    }

    /** OppositeNavy.ai_box_hit: a hidden ship is revealed exactly when its last cell is struck. */
    method AiBoxHit(pos: Pos) returns (hitted: bool)
      requires Valid() && InGrid(pos)
      modifies this, navy
      ensures Valid() && Attacked(pos, hitted)
    {
      var k := 0;
      while k < |aiSetup|
        invariant 0 <= k <= |aiSetup|
        invariant forall j :: 0 <= j < k ==> !aiSetup[j].Covers(pos)
      {
        if aiSetup[k].Covers(pos) {
          assert FirstCovering(aiSetup, pos) == k;
          StrikeHidden(k, pos);
          return true;
        }
        k := k + 1;
      }
      navy.SetBoxHit(pos, HatchImage);
      StillDestroyed(navy.ships, old(navy.disabled), navy.disabled);
      return false;
    }

    /** The branch of ai_box_hit taken for the first hidden ship k covering pos:
        cross the box and, if that was the ship's last cell, reveal the ship. */
    method StrikeHidden(k: nat, pos: Pos)
      requires Valid() && k < |aiSetup| && aiSetup[k].Covers(pos)
      modifies this, navy
      ensures Valid() && fleet == old(fleet)
      ensures var ship := old(aiSetup)[k];
              var struck := old(navy.disabled) + {pos};
              var crossed := old(navy.cellMap)[pos := Cross];
              if ship.Destroyed(struck) then
                && navy.cellMap == Revealed(crossed, struck, ship)
                && navy.disabled == struck + Moat(ship)
                && aiSetup == old(aiSetup)[..k] + old(aiSetup)[k + 1..]
                && navy.ships == old(navy.ships) + [ship]
              else
                && navy.cellMap == crossed
                && navy.disabled == struck
                && aiSetup == old(aiSetup) && navy.ships == old(navy.ships)
    {
      var ship := aiSetup[k];
      navy.SetBoxHit(pos, CrossImage);
      StillDestroyed(navy.ships, old(navy.disabled), navy.disabled);
      if ship.Destroyed(navy.disabled) {
        assert aiSetup == aiSetup[..k] + [ship] + aiSetup[k + 1..];
        aiSetup := aiSetup[..k] + aiSetup[k + 1..];
        navy.ships := navy.ships + [ship];
        ghost var struck := navy.disabled;
        navy.HitAllBoxesAroundShip(ship);
        StillDestroyed(navy.ships, struck, navy.disabled);
      }
    }
  }

  /** Striking more boxes never un-destroys a ship. */
  lemma StillDestroyed(ships: seq<Ship>, before: set<Pos>, after: set<Pos>)
    requires before <= after
    requires forall k :: 0 <= k < |ships| ==> ships[k].Destroyed(before)
    ensures forall k :: 0 <= k < |ships| ==> ships[k].Destroyed(after)
  {
  }

  /** Navy.destroyed on a consistent board: ten ships, and every box any of
      them covers has been struck (is no longer BOX_NO_HIT). */
  lemma DestroyedMeansStruck(n: Navy)
    requires n.Valid()
    ensures n.Destroyed() <==>
            |n.ships| == 10 &&
            forall k, p :: 0 <= k < |n.ships| && n.ships[k].Covers(p) ==> n.cellMap[p] != NoHit
  {
    if |n.ships| == 10 && forall k, p :: 0 <= k < |n.ships| && n.ships[k].Covers(p) ==> n.cellMap[p] != NoHit {
      forall k | 0 <= k < |n.ships|
        ensures n.ships[k].Destroyed(n.disabled)
      {
        forall p | p in n.ships[k].boxes && InGrid(p)
          ensures p in n.disabled
        {
          assert n.ships[k].Covers(p);
        }
      }
    }
  }

  /** Against the AI, the opposing board reports destruction exactly when all
      ten hidden ships have been sunk and revealed. */
  lemma {:induction false} OppositeDestroyedIffAllSunk(o: OppositeNavy)
    requires o.Valid() && |o.fleet| == 10
    ensures o.navy.Destroyed() <==> o.aiSetup == []
  {
    assert |multiset(o.navy.ships)| == |o.navy.ships|;
    assert |multiset(o.aiSetup)| == |o.aiSetup|;
    assert |o.navy.ships| + |o.aiSetup| == 10;
  }
}
