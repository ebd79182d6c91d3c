/** The fleet placement editor of setup_navy.py (classes NavySetup,
    ShipSetup and BoxSetup), reduced to its cell bookkeeping: which ship
    each box of the grid belongs to, the boxes each ship covers and its
    orientation. Positions are (i, j), i being the horizontal index. */
module Setup {
  import opened Grid

  /** One entry of NavySetup.ships: its key and ship_size. */
  datatype ShipKind = ShipKind(name: string, size: nat)

  /** The ten ships of the editor, in the insertion order of NavySetup.ships. */
  const Roster: seq<ShipKind> := [
    ShipKind("carrier", 4),
    ShipKind("battleship_1", 3), ShipKind("battleship_2", 3),
    ShipKind("destroyer_1", 2), ShipKind("destroyer_2", 2), ShipKind("destroyer_3", 2),
    ShipKind("patroal_1", 1), ShipKind("patroal_2", 1), ShipKind("patroal_3", 1), ShipKind("patroal_4", 1)
  ]

  /** The box owners of the editor: box.ship of every box of cases_rect, as
      the index in Roster of the ship it belongs to. */
  type Owners = map<Pos, Option<nat>>

  /** The i-th box of a ship whose first box is p: a horizontal ship grows
      along i, a vertical one along j. */
  function Cell(p: Pos, o: Orient, i: int): Pos {
    if o == Horizontal then (p.0 + i, p.1) else (p.0, p.1 + i)
  }

  /** The n boxes of a ship of orientation o whose first box is p: a run
      that starts at p and steps by one box along o. */
  function Line(p: Pos, o: Orient, n: nat): (r: seq<Pos>)
    ensures |r| == n && (n > 0 ==> r[0] == p)
    ensures forall i :: 0 < i < n ==> r[i] == Cell(r[i - 1], o, 1)
  {
    seq(n, i => Cell(p, o, i))
  }

  function Flip(o: Orient): Orient {
    if o == Horizontal then Vertical else Horizontal
  }

  /** The boxes of a ship on the grid form one straight line of its size. */
  predicate Laid(cells: seq<Pos>, o: Orient, n: nat) {
    cells != [] && cells == Line(cells[0], o, n)
  }

  lemma LaidFromStart(s: Pos, o: Orient, k: nat)
    requires k < |Roster|
    ensures Laid([] + Line(s, o, Roster[k].size), o, Roster[k].size)
  {
    assert Roster[k].size >= 1;
    assert [] + Line(s, o, Roster[k].size) == Line(s, o, Roster[k].size);
  }

  /** The order of cases_rect.values(): init_cases fills it with j outer and i inner. */
  function GridOrder(): seq<Pos> {
    seq(NbLinesBoxes * NbColumnsBoxes, t => (t % NbLinesBoxes, t / NbLinesBoxes))
  }

  /** Every box of the grid appears in GridOrder, at index i + 10 j. */
  lemma GridOrderIndex(p: Pos)
    requires InGrid(p)
    ensures 0 <= p.0 + NbLinesBoxes * p.1 < |GridOrder()|
    ensures GridOrder()[p.0 + NbLinesBoxes * p.1] == p
  {
  }

  lemma GridOrderCells()
    ensures forall t :: 0 <= t < |GridOrder()| ==> InGrid(GridOrder()[t])
    ensures forall p :: p in GridOrder() <==> InGrid(p)
  {
    forall p | InGrid(p)
      ensures p in GridOrder()
    {
      GridOrderIndex(p);
    }
  }

  /** valid_box: no box of the 3x3 block around p (p included) belongs to a
      ship other than ship k. */
  predicate FreeAround(owner: Owners, p: Pos, k: nat) {
    forall q :: q in owner && InBlock(p, q) ==> owner[q] == None || owner[q] == Some(k)
  }

  /** A first box from which ship k, of size n and orientation o, fits:
      each of its boxes exists and passes valid_box. */
  predicate AvailableStart(owner: Owners, p: Pos, n: nat, o: Orient, k: nat) {
    forall i :: 0 <= i < n ==> Cell(p, o, i) in owner && FreeAround(owner, Cell(p, o, i), k)
  }

  /** The boxes of `cells`, in order, from which ship k fits. */
  function Starts(owner: Owners, cells: seq<Pos>, n: nat, o: Orient, k: nat): (r: seq<Pos>)
    ensures |r| <= |cells|
  {
    if cells == [] then []
    else
      var last := |cells| - 1;
      Starts(owner, cells[..last], n, o, k) + (if AvailableStart(owner, cells[last], n, o, k) then [cells[last]] else [])
  }

  lemma {:induction false} StartsMember(owner: Owners, cells: seq<Pos>, n: nat, o: Orient, k: nat, p: Pos)
    ensures p in Starts(owner, cells, n, o, k) <==> p in cells && AvailableStart(owner, p, n, o, k)
  {
    if cells != [] {
      var last := |cells| - 1;
      StartsMember(owner, cells[..last], n, o, k, p);
      assert cells == cells[..last] + [cells[last]];
    }
  }

  /** The boxes of `cells` that lie in h, in order. */
  function Keep(cells: seq<Pos>, h: set<Pos>): (r: seq<Pos>)
    ensures |r| <= |cells|
  {
    if cells == [] then []
    else
      var last := |cells| - 1;
      Keep(cells[..last], h) + (if cells[last] in h then [cells[last]] else [])
  }

  lemma {:induction false} KeepMember(cells: seq<Pos>, h: set<Pos>, p: Pos)
    ensures p in Keep(cells, h) <==> p in cells && p in h
  {
    if cells != [] {
      var last := |cells| - 1;
      KeepMember(cells[..last], h, p);
      assert cells == cells[..last] + [cells[last]];
    }
  }

  /** The owners once the boxes in `cells` are given back (box.ship = None). */
  function Released(owner: Owners, cells: seq<Pos>): Owners {
    map p | p in owner :: if p in cells then None else owner[p]
  }

  /** The owners once the boxes in `cells` are given to ship k (box.ship = ship). */
  function Claimed(owner: Owners, cells: seq<Pos>, k: nat): Owners {
    map p | p in owner :: if p in cells then Some(k) else owner[p]
  }

  lemma ReleasedStep(owner: Owners, cells: seq<Pos>, t: nat)
    requires t < |cells| && cells[t] in owner
    ensures Released(owner, cells[..t + 1]) == Released(owner, cells[..t])[cells[t] := None]
  {
    assert cells[..t + 1] == cells[..t] + [cells[t]];
  }

  lemma ClaimedStep(owner: Owners, cells: seq<Pos>, t: nat, k: nat)
    requires t < |cells| && cells[t] in owner
    ensures Claimed(owner, cells[..t + 1], k) == Claimed(owner, cells[..t], k)[cells[t] := Some(k)]
  {
    assert cells[..t + 1] == cells[..t] + [cells[t]];
  }

  /** No two ships share a box or touch, even diagonally. */
  ghost predicate Separated(owner: Owners) {
    forall p, q :: p in owner && q in owner && owner[p].Some? && owner[q].Some? && owner[p] != owner[q] ==>
      !InBlock(p, q)
  }

  /** Giving boxes that pass valid_box to ship k keeps the ships apart. */
  lemma ClaimKeepsApart(owner: Owners, cells: seq<Pos>, k: nat)
    requires Separated(owner)
    requires forall c :: c in cells ==> c in owner && FreeAround(owner, c, k)
    ensures Separated(Claimed(owner, cells, k))
  {
    var after := Claimed(owner, cells, k);
    forall p, q | p in after && q in after && after[p].Some? && after[q].Some? && after[p] != after[q]
      ensures !InBlock(p, q)
    {
      if p in cells {
        assert InBlock(p, q) ==> q in owner && InBlock(p, q);
      } else if q in cells {
        assert InBlock(q, p) <==> InBlock(p, q);
      }
    }
  }

  /** rotate_ship's test: the ship is on the grid and, keeping its first box,
      each other box of the rotated ship exists and is not in use. */
  predicate CanRotate(owner: Owners, cells: seq<Pos>, o: Orient, n: nat) {
    cells != [] &&
    forall i :: 1 <= i < n ==> Cell(cells[0], Flip(o), i) in owner && owner[Cell(cells[0], Flip(o), i)] == None
  }

  /** The test rotate_ship evidently intends: each new box passes valid_box,
      as everywhere else in the editor. */
  predicate CanRotateApart(owner: Owners, cells: seq<Pos>, o: Orient, n: nat, k: nat) {
    cells != [] &&
    forall i :: 1 <= i < n ==> Cell(cells[0], Flip(o), i) in owner && FreeAround(owner, Cell(cells[0], Flip(o), i), k)
  }

  /** The offsets valid_box visits, in its order: the 3x3 block, its centre included. */
  const Block: seq<(int, int)> := [(-1, -1), (0, -1), (1, -1), (-1, 0), (0, 0), (1, 0), (-1, 1), (0, 1), (1, 1)]

  /** Each cell of the block around p is reached by one of the offsets. */
  lemma BlockReached(p: Pos, q: Pos)
    requires InBlock(p, q)
    ensures var t := (q.0 - p.0 + 1) + 3 * (q.1 - p.1 + 1);
            0 <= t < |Block| && q == Shift(p, Block[t])
  {
  }

  class NavySetup {
    /** box.ship of every box of cases_rect. */
    var owner: Owners
    /** cases_covered of each ship of the roster, in roster order. */
    var covered: seq<seq<Pos>>
    /** orient of each ship of the roster. */
    var orient: seq<Orient>
    var myClock: int
    var startGame: bool

    /** The boxes are the grid; a box belongs to a ship iff that ship covers it. */
    ghost predicate Valid()
      reads this
    {
      && IsGridMap(owner) && |covered| == |Roster| && |orient| == |Roster|
      && (forall p :: p in owner && owner[p].Some? ==> owner[p].value < |Roster| && p in covered[owner[p].value])
      && (forall k, p :: 0 <= k < |covered| && p in covered[k] ==> p in owner && owner[p] == Some(k))
    }

    /** ShipSetup.on_map. */
    predicate OnMap(k: nat)
      reads this`covered
    {
      k < |covered| && covered[k] != []
    }

    /** Ship k is off the grid and get_available_boxes has nothing for it in
        its current orientation: random.choice fails on it. */
    predicate NoRoom(k: nat)
      reads this
    {
      && k < |Roster| && k < |covered| && k < |orient|
      && covered[k] == []
      && Starts(owner, GridOrder(), Roster[k].size, orient[k], k) == []
    }

    /** A fresh editor: every box free, no ship placed, every ship
        horizontal, 30 seconds on the clock, the game not started. */
    constructor ()
      ensures Valid() && Separated(owner)
      ensures forall p :: p in owner ==> owner[p] == None
      ensures forall k :: 0 <= k < |Roster| ==> covered[k] == [] && orient[k] == Horizontal
      ensures myClock == 30 && !startGame
    {
      var m := InitCases();
      owner := m;
      covered := seq(|Roster|, _ => []);
      orient := seq(|Roster|, _ => Horizontal);
      myClock := 30;
      startGame := false;
    }

    /** init_cases: one free box per cell of the grid. */
    static method InitCases() returns (m: Owners)
      ensures IsGridMap(m) && forall p :: p in m ==> m[p] == None
    {
      m := map[];
      var j := 0;
      while j < NbColumnsBoxes
        invariant 0 <= j <= NbColumnsBoxes
        invariant forall p :: p in m <==> 0 <= p.0 < NbLinesBoxes && 0 <= p.1 < j
        invariant forall p :: p in m ==> m[p] == None
      {
        var i := 0;
        while i < NbLinesBoxes
          invariant 0 <= i <= NbLinesBoxes
          invariant forall p :: p in m <==> (0 <= p.0 < NbLinesBoxes && 0 <= p.1 < j) || (0 <= p.0 < i && p.1 == j)
          invariant forall p :: p in m ==> m[p] == None
        {
          m := m[(i, j) := None];
          i := i + 1;
        }
        j := j + 1;
      }
    }

    /** NavySetup.valid_box: true iff no box of the block around pos belongs
        to a ship other than ship k. Changes nothing. */
    method ValidBox(pos: Pos, k: nat) returns (valid: bool)
      ensures valid <==> FreeAround(owner, pos, k)
    {
      var t := 0;
      while t < |Block|
        invariant 0 <= t <= |Block|
        invariant forall u :: 0 <= u < t && Shift(pos, Block[u]) in owner ==>
                    owner[Shift(pos, Block[u])] == None || owner[Shift(pos, Block[u])] == Some(k)
      {
        var q := Shift(pos, Block[t]);
        if q in owner && owner[q].Some? && owner[q] != Some(k) {
          assert InBlock(pos, q);
          return false;
        }
        t := t + 1;
      }
      forall q | q in owner && InBlock(pos, q)
        ensures owner[q] == None || owner[q] == Some(k)
      {
        BlockReached(pos, q);
      }
      return true;
    }

    /** NavySetup.get_available_boxes: the boxes, in grid order, from which
        ship k fits with its current orientation. Changes nothing. */
    method GetAvailableBoxes(k: nat) returns (avail: seq<Pos>)
      requires Valid() && k < |Roster|
      ensures avail == Starts(owner, GridOrder(), Roster[k].size, orient[k], k)
    {
      var cells := GridOrder();
      GridOrderCells();
      var n := Roster[k].size;
      avail := [];
      var t := 0;
      while t < |cells|
        invariant 0 <= t <= |cells|
        invariant avail == Starts(owner, cells[..t], n, orient[k], k)
      {
        var box := cells[t];
        assert cells[..t + 1][..t] == cells[..t];
        var valid := Fits(box, k);
        if valid {
          avail := avail + [box];
        }
        t := t + 1;
      }
      assert cells[..t] == cells;
    }

    /** The test get_available_boxes applies to one box: each box of ship k
        laid from it with its current orientation exists and passes valid_box. */
    method Fits(box: Pos, k: nat) returns (valid: bool)
      requires Valid() && k < |Roster| && InGrid(box)
      ensures valid <==> AvailableStart(owner, box, Roster[k].size, orient[k], k)
    {
      var n := Roster[k].size;
      valid := ValidBox(box, k);
      if !valid {
        assert Cell(box, orient[k], 0) == box;
        return;
      }
      var i := 1;
      while i < n
        invariant 1 <= i <= n
        invariant forall i' :: 0 <= i' < i ==> Cell(box, orient[k], i') in owner && FreeAround(owner, Cell(box, orient[k], i'), k)
      {
        var b := Cell(box, orient[k], i);
        if b !in owner {
          return false;
        }
        valid := ValidBox(b, k);
        if !valid {
          return;
        }
        i := i + 1;
      }
    }

    /** The cell bookkeeping of `box.ship = None` on every box of ship k and
        `cases_covered.clear()`. */
    method ReleaseCells(k: nat)
      requires Valid() && k < |Roster|
      modifies this
      ensures Valid()
      ensures owner == Released(old(owner), old(covered[k]))
      ensures covered == old(covered)[k := []]
      ensures orient == old(orient) && myClock == old(myClock) && startGame == old(startGame)
    {
      var cells := covered[k];
      ghost var owner0, covered0 := owner, covered;
      var t := 0;
      while t < |cells|
        invariant 0 <= t <= |cells|
        invariant owner == Released(owner0, cells[..t])
        invariant covered == covered0 && orient == old(orient)
        invariant myClock == old(myClock) && startGame == old(startGame)
      {
        ReleasedStep(owner0, cells, t);
        owner := owner[cells[t] := None];
        t := t + 1;
      }
      assert cells[..t] == cells;
      covered := covered[k := []];
    }

    /** The cell bookkeeping of `box.ship = ship` and
        `cases_covered.append(box)` for each box of `cells`, in order. */
    method ClaimCells(k: nat, cells: seq<Pos>)
      requires Valid() && k < |Roster|
      requires forall c :: c in cells ==> c in owner && (owner[c] == None || owner[c] == Some(k))
      modifies this
      ensures Valid()
      ensures owner == Claimed(old(owner), cells, k)
      ensures covered == old(covered)[k := old(covered[k]) + cells]
      ensures orient == old(orient) && myClock == old(myClock) && startGame == old(startGame)
    {
      ghost var owner0, covered0, mine := owner, covered, covered[k];
      var t := 0;
      assert mine + cells[..0] == covered[k];
      while t < |cells|
        invariant 0 <= t <= |cells|
        invariant Valid()
        invariant owner == Claimed(owner0, cells[..t], k)
        invariant covered == covered0[k := mine + cells[..t]]
        invariant orient == old(orient) && myClock == old(myClock) && startGame == old(startGame)
      {
        assert mine + cells[..t + 1] == mine + cells[..t] + [cells[t]];
        ClaimedStep(owner0, cells, t, k);
        ClaimOne(k, cells[t]);
        t := t + 1;
      }
      assert cells[..t] == cells;
    }

    /** `box.ship = ship` and `cases_covered.append(box)` for one box. */
    method ClaimOne(k: nat, c: Pos)
      requires Valid() && k < |Roster|
      requires c in owner && (owner[c] == None || owner[c] == Some(k))
      modifies this
      ensures Valid()
      ensures owner == old(owner)[c := Some(k)]
      ensures covered == old(covered)[k := old(covered[k]) + [c]]
      ensures orient == old(orient) && myClock == old(myClock) && startGame == old(startGame)
    {
      owner := owner[c := Some(k)];
      covered := covered[k := covered[k] + [c]];
    }
  
    /** NavySetup.set_random_position: pick an orientation, then one of the
        available first boxes, and lay ship k from it; with no first box
        available random.choice fails (None) once the orientation is set. */
    method SetRandomPosition(k: nat) returns (start: Option<Pos>)
      requires Valid() && k < |Roster|
      modifies this
      ensures Valid() && myClock == old(myClock) && startGame == old(startGame)
      ensures orient == old(orient)[k := orient[k]]
      ensures var n := Roster[k].size;
              if start.None? then
                && Starts(old(owner), GridOrder(), n, orient[k], k) == []
                && owner == old(owner) && covered == old(covered)
              else
                && start.value in Starts(old(owner), GridOrder(), n, orient[k], k)
                && covered == old(covered)[k := old(covered[k]) + Line(start.value, orient[k], n)]
                && owner == Claimed(old(owner), Line(start.value, orient[k], n), k)
      ensures Separated(old(owner)) ==> Separated(owner)
    {
      var vertical: bool :| true;
      orient := orient[k := if vertical then Vertical else Horizontal];
      var avail := GetAvailableBoxes(k);
      if avail == [] {
        return None;
      }
      assert avail[0] in avail;
      var first :| first in avail;
      var n := Roster[k].size;
      var cells := Line(first, orient[k], n);
      forall c | c in cells
        ensures c in owner && FreeAround(owner, c, k)
      {
        StartsMember(owner, GridOrder(), n, orient[k], k, first);
      }
      ghost var before := owner;
      ClaimCells(k, cells);
      if Separated(before) {
        ClaimKeepsApart(before, cells, k);
      }
      start := Some(first);
    }
  
    /** The end of rotate_ship once the new boxes are found: flip the
        orientation, give back the old boxes and take the new line from the
        first box. */
    method Turn(k: nat, newCases: seq<Pos>)
      requires Valid() && k < |Roster| && covered[k] != []
      requires forall c :: c in newCases ==> c in owner && (owner[c] == None || owner[c] == Some(k))
      modifies this
      ensures Valid() && myClock == old(myClock) && startGame == old(startGame)
      ensures orient == old(orient)[k := Flip(old(orient[k]))]
      ensures covered == old(covered)[k := [old(covered[k])[0]] + newCases]
      ensures owner == Claimed(Released(old(owner), old(covered[k])), [old(covered[k])[0]] + newCases, k)
      ensures Separated(old(owner)) && (forall c :: c in newCases ==> FreeAround(old(owner), c, k)) ==>
                Separated(owner)
    {
      var first := covered[k][0];
      orient := orient[k := Flip(orient[k])];
      MoveShip(k, [first] + newCases);
    }

    /** ShipSetup.rotate_ship: turn a ship that is on the grid about its
        first box, when each other box of the rotated ship exists and is
        not in use; otherwise nothing changes. */
    method RotateShip(k: nat)
      requires Valid() && k < |Roster|
      modifies this
      ensures Valid() && myClock == old(myClock) && startGame == old(startGame)
      ensures var n := Roster[k].size;
              if CanRotate(old(owner), old(covered[k]), old(orient[k]), n) then
                var cells := Line(old(covered[k])[0], Flip(old(orient[k])), n);
                && orient == old(orient)[k := Flip(old(orient[k]))]
                && covered == old(covered)[k := cells]
                && owner == Claimed(Released(old(owner), old(covered[k])), cells, k)
              else owner == old(owner) && covered == old(covered) && orient == old(orient)
    {
      if covered[k] == [] {
        return;
      }
      var first := covered[k][0];
      var n := Roster[k].size;
      var target := Flip(orient[k]);
      var newCases: seq<Pos> := [];
      var i := 1;
      while i < n
        invariant 1 <= i && (n >= 1 ==> i <= n)
        invariant |newCases| == i - 1
        invariant forall u :: 1 <= u < i ==> newCases[u - 1] == Cell(first, target, u)
        invariant forall u :: 1 <= u < i ==> Cell(first, target, u) in owner && owner[Cell(first, target, u)] == None
      {
        var box := Cell(first, target, i);
        if box !in owner || owner[box].Some? {
          return;
        }
        newCases := newCases + [box];
        i := i + 1;
      }
      assert n >= 1;
      assert [first] + newCases == Line(first, target, n);
      forall c | c in newCases
        ensures c in owner && owner[c] == None
      {
        var u :| 0 <= u < |newCases| && newCases[u] == c;
        assert c == Cell(first, target, u + 1);
      }
      Turn(k, newCases);
    }

    /** rotate_ship with the test the rest of the editor applies: each new
        box must pass valid_box. This rotation keeps the ships apart. */
    method RotateShipApart(k: nat)
      requires Valid() && k < |Roster|
      modifies this
      ensures Valid() && myClock == old(myClock) && startGame == old(startGame)
      ensures var n := Roster[k].size;
              if CanRotateApart(old(owner), old(covered[k]), old(orient[k]), n, k) then
                var cells := Line(old(covered[k])[0], Flip(old(orient[k])), n);
                && orient == old(orient)[k := Flip(old(orient[k]))]
                && covered == old(covered)[k := cells]
                && owner == Claimed(Released(old(owner), old(covered[k])), cells, k)
              else owner == old(owner) && covered == old(covered) && orient == old(orient)
      ensures Separated(old(owner)) ==> Separated(owner)
    {
      if covered[k] == [] {
        return;
      }
      var first := covered[k][0];
      var n := Roster[k].size;
      var target := Flip(orient[k]);
      var newCases: seq<Pos> := [];
      var i := 1;
      while i < n
        invariant 1 <= i && (n >= 1 ==> i <= n)
        invariant |newCases| == i - 1
        invariant forall u :: 1 <= u < i ==> newCases[u - 1] == Cell(first, target, u)
        invariant forall u :: 1 <= u < i ==> Cell(first, target, u) in owner && FreeAround(owner, Cell(first, target, u), k)
        invariant unchanged(this)
      {
        var box := Cell(first, target, i);
        if box !in owner {
          return;
        }
        var valid := ValidBox(box, k);
        if !valid {
          return;
        }
        newCases := newCases + [box];
        i := i + 1;
      }
      assert n >= 1;
      var cells := [first] + newCases;
      assert cells == Line(first, target, n);
      forall c | c in newCases
        ensures c in owner && FreeAround(owner, c, k)
      {
        var u :| 0 <= u < |newCases| && newCases[u] == c;
        assert c == Cell(first, target, u + 1);
      }
      forall c | c in newCases
        ensures owner[c] == None || owner[c] == Some(k)
      {
        assert InBlock(c, c);
      }
      Turn(k, newCases);
    }

    /** ShipSetup.place_ship: the boxes highlighted under the dropped ship
        become its boxes, in grid order, when there is at least one and each
        passes valid_box; otherwise the ship goes back and nothing changes. */
    method PlaceShip(k: nat, highlighted: set<Pos>) returns (committed: bool)
      requires Valid() && k < |Roster|
      requires forall p :: p in highlighted ==> InGrid(p)
      modifies this
      ensures Valid() && orient == old(orient) && myClock == old(myClock) && startGame == old(startGame)
      ensures committed <==> highlighted != {} && forall p :: p in highlighted ==> FreeAround(old(owner), p, k)
      ensures committed ==>
                && covered == old(covered)[k := Keep(GridOrder(), highlighted)]
                && owner == Claimed(Released(old(owner), old(covered[k])), Keep(GridOrder(), highlighted), k)
      ensures !committed ==> owner == old(owner) && covered == old(covered)
      ensures Separated(old(owner)) ==> Separated(owner)
    {
      var active := Collect(highlighted);
      var allValid := AllFree(k, active);
      HighlightedInOrder(highlighted, active);
      if |active| > 0 && allValid {
        MoveShip(k, active);
        committed := true;
      } else {
        committed := false;
      }
    }

    /** The first loop of place_ship: the highlighted boxes, in grid order. */
    static method Collect(highlighted: set<Pos>) returns (active: seq<Pos>)
      ensures active == Keep(GridOrder(), highlighted)
    {
      var cells := GridOrder();
      active := [];
      var t := 0;
      while t < |cells|
        invariant 0 <= t <= |cells|
        invariant active == Keep(cells[..t], highlighted)
      {
        assert cells[..t + 1][..t] == cells[..t];
        if cells[t] in highlighted {
          active := active + [cells[t]];
        }
        t := t + 1;
      }
      assert cells[..t] == cells;
    }

    /** `all(box.is_valid() for box in active_cases)`, each box's colour
        being its valid_box test. Changes nothing. */
    method AllFree(k: nat, active: seq<Pos>) returns (allValid: bool)
      ensures allValid <==> forall c :: c in active ==> FreeAround(owner, c, k)
    {
      allValid := true;
      var t := 0;
      while t < |active| && allValid
        invariant 0 <= t <= |active|
        invariant allValid ==> forall u :: 0 <= u < t ==> FreeAround(owner, active[u], k)
        invariant !allValid ==> 0 < t && !FreeAround(owner, active[t - 1], k)
      {
        allValid := ValidBox(active[t], k);
        t := t + 1;
      }
      if allValid {
        forall c | c in active
          ensures FreeAround(owner, c, k)
        {
          var u :| 0 <= u < |active| && active[u] == c;
        }
      }
    }

    /** Give back the boxes of ship k and give it `cells` instead; this
        keeps the ships apart when each new box is an old one or passes valid_box. */
    method MoveShip(k: nat, cells: seq<Pos>)
      requires Valid() && k < |Roster|
      requires forall c :: c in cells ==> c in owner && (owner[c] == None || owner[c] == Some(k))
      modifies this
      ensures Valid() && orient == old(orient) && myClock == old(myClock) && startGame == old(startGame)
      ensures covered == old(covered)[k := cells]
      ensures owner == Claimed(Released(old(owner), old(covered[k])), cells, k)
      ensures Separated(old(owner)) && (forall c :: c in cells ==> c in old(covered[k]) || FreeAround(old(owner), c, k)) ==>
                Separated(owner)
    {
      ghost var before := owner;
      ghost var gone := covered[k];
      ReleaseCells(k);
      assert [] + cells == cells;
      ClaimCells(k, cells);
      if Separated(before) && forall c :: c in cells ==> c in gone || FreeAround(before, c, k) {
        ReleasedApart(before, gone, cells, k);
      }
    }

    /** NavySetup.reinit_all_ships: every ship leaves the grid, those that
        were on it turned back horizontal, and every box is freed. */
    method ReinitAllShips()
      requires Valid()
      modifies this
      ensures Valid() && Separated(owner) && myClock == old(myClock) && startGame == old(startGame)
      ensures forall p :: p in owner ==> owner[p] == None
      ensures forall k :: 0 <= k < |Roster| ==>
                && covered[k] == []
                && orient[k] == (if old(covered[k]) != [] then Horizontal else old(orient[k]))
    {
      var k := 0;
      while k < |Roster|
        invariant 0 <= k <= |Roster| && |covered| == |Roster| && |orient| == |Roster|
        invariant forall l :: 0 <= l < k ==>
                    covered[l] == [] && orient[l] == (if old(covered[l]) != [] then Horizontal else old(orient[l]))
        invariant forall l :: k <= l < |Roster| ==> covered[l] == old(covered[l]) && orient[l] == old(orient[l])
        invariant owner == old(owner) && myClock == old(myClock) && startGame == old(startGame)
      {
        if covered[k] != [] {
          if orient[k] == Vertical {
            orient := orient[k := Horizontal];
          }
          covered := covered[k := []];
        }
        k := k + 1;
      }
      FreeAllBoxes();
    }

    /** The last loop of reinit_all_ships: `box.ship = None` on every box. */
    method FreeAllBoxes()
      requires IsGridMap(owner)
      modifies this
      ensures IsGridMap(owner) && forall p :: p in owner ==> owner[p] == None
      ensures covered == old(covered) && orient == old(orient)
      ensures myClock == old(myClock) && startGame == old(startGame)
    {
      var cells := GridOrder();
      GridOrderCells();
      var t := 0;
      while t < |cells|
        invariant 0 <= t <= |cells|
        invariant IsGridMap(owner)
        invariant forall u :: 0 <= u < t ==> owner[cells[u]] == None
        invariant covered == old(covered) && orient == old(orient)
        invariant myClock == old(myClock) && startGame == old(startGame)
      {
        owner := owner[cells[t] := None];
        t := t + 1;
      }
      forall p | p in owner
        ensures owner[p] == None
      {
        GridOrderIndex(p);
      }
    }

    /** NavySetup.random_positions: clear the grid, then lay every ship of
        the roster at random in roster order; a failed random.choice stops
        there. Success leaves each ship a full straight line and no two
        ships touching. */
    method RandomPositions() returns (ok: bool)
      requires Valid()
      modifies this
      ensures Valid() && Separated(owner) && myClock == old(myClock) && startGame == old(startGame)
      ensures ok ==> forall k :: 0 <= k < |Roster| ==>
                Laid(covered[k], orient[k], Roster[k].size)
      ensures !ok ==> exists k :: 0 <= k < |Roster| && NoRoom(k)
    {
      ReinitAllShips();
      var k := 0;
      while k < |Roster|
        invariant 0 <= k <= |Roster|
        invariant Valid() && Separated(owner) && myClock == old(myClock) && startGame == old(startGame)
        invariant forall l :: 0 <= l < k ==>
                    Laid(covered[l], orient[l], Roster[l].size)
        invariant forall l :: k <= l < |Roster| ==> covered[l] == []
      {
        var start := SetRandomPosition(k);
        if start.None? {
          assert NoRoom(k);
          return false;
        }
        LaidFromStart(start.value, orient[k], k);
        k := k + 1;
      }
      return true;
    }

    /** NavySetup.play: the game starts only once every ship is on the grid. */
    method Play()
      requires Valid()
      modifies this
      ensures Valid()
      ensures owner == old(owner) && covered == old(covered) && orient == old(orient) && myClock == old(myClock)
      ensures startGame == (old(startGame) || forall k :: 0 <= k < |Roster| ==> OnMap(k))
    {
      var k := 0;
      while k < |Roster|
        invariant 0 <= k <= |Roster|
        invariant forall l :: 0 <= l < k ==> OnMap(l)
      {
        if !OnMap(k) {
          return;
        }
        k := k + 1;
      }
      startGame := true;
    }

    /** NavySetup.update_timer: one second elapses; at zero every ship still
        off the grid is laid at random (a failed random.choice stops there)
        and the game is started. */
    method UpdateTimer() returns (ok: bool)
      requires Valid()
      modifies this
      ensures Valid() && myClock == old(myClock) - 1
      ensures myClock != 0 ==>
                ok && owner == old(owner) && covered == old(covered) && orient == old(orient) && startGame == old(startGame)
      ensures forall k :: 0 <= k < |Roster| && old(covered[k]) != [] ==>
                covered[k] == old(covered[k]) && orient[k] == old(orient[k])
      ensures !ok ==> myClock == 0 && exists k :: 0 <= k < |Roster| && NoRoom(k)
      ensures myClock == 0 && ok ==>
                && startGame
                && forall k :: 0 <= k < |Roster| && old(covered[k]) == [] ==>
                     Laid(covered[k], orient[k], Roster[k].size)
      ensures Separated(old(owner)) ==> Separated(owner)
    {
      myClock := myClock - 1;
      ok := true;
      if myClock == 0 {
        ok := PlaceRemaining();
        if ok {
          Play();
        }
      }
    }

    /** The loop of update_timer at zero: lay at random, in roster order,
        every ship that is not on the grid; a failed random.choice stops there. */
    method PlaceRemaining() returns (ok: bool)
      requires Valid()
      modifies this
      ensures Valid() && myClock == old(myClock) && startGame == old(startGame)
      ensures forall k :: 0 <= k < |Roster| && old(covered[k]) != [] ==>
                covered[k] == old(covered[k]) && orient[k] == old(orient[k])
      ensures ok ==> forall k :: 0 <= k < |Roster| && old(covered[k]) == [] ==>
                Laid(covered[k], orient[k], Roster[k].size)
      ensures !ok ==> exists k :: 0 <= k < |Roster| && NoRoom(k)
      ensures Separated(old(owner)) ==> Separated(owner)
    {
      ok := true;
      ghost var before := covered;
      ghost var turned := orient;
      ghost var apart := Separated(owner);
      var k := 0;
      while k < |Roster|
        invariant 0 <= k <= |Roster| && ok
        invariant Valid() && myClock == old(myClock) && startGame == old(startGame)
        invariant forall l :: 0 <= l < |Roster| && before[l] != [] ==> covered[l] == before[l] && orient[l] == turned[l]
        invariant forall l :: 0 <= l < k && before[l] == [] ==> Laid(covered[l], orient[l], Roster[l].size)
        invariant forall l :: k <= l < |Roster| ==> covered[l] == before[l]
        invariant apart ==> Separated(owner)
      {
        ok := PlaceIfOff(k);
        if !ok {
          return;
        }
        k := k + 1;
      }
    }

    /** One pass of that loop: ship k, if not on the grid, is laid at random. */
    method PlaceIfOff(k: nat) returns (ok: bool)
      requires Valid() && k < |Roster|
      modifies this
      ensures Valid() && myClock == old(myClock) && startGame == old(startGame)
      ensures covered == old(covered)[k := covered[k]] && orient == old(orient)[k := orient[k]]
      ensures old(OnMap(k)) ==> ok && covered[k] == old(covered[k]) && orient[k] == old(orient[k]) && owner == old(owner)
      ensures ok && old(covered[k]) == [] ==> Laid(covered[k], orient[k], Roster[k].size)
      ensures !ok ==> !old(OnMap(k)) && NoRoom(k) && owner == old(owner) && covered == old(covered)
      ensures Separated(old(owner)) ==> Separated(owner)
    {
      ok := true;
      if covered[k] == [] {
        var start := SetRandomPosition(k);
        if start.None? {
          return false;
        }
        LaidFromStart(start.value, orient[k], k);
      }
    }
  }

  /** Giving back a ship's boxes and laying it again on boxes that are
      either among its old boxes or pass valid_box keeps the ships apart. */
  lemma ReleasedApart(owner: Owners, gone: seq<Pos>, cells: seq<Pos>, k: nat)
    requires Separated(owner)
    requires forall p :: p in gone ==> p in owner && owner[p] == Some(k)
    requires forall c :: c in cells ==> c in owner && (c in gone || FreeAround(owner, c, k))
    ensures Separated(Claimed(Released(owner, gone), cells, k))
  {
    var mid := Released(owner, gone);
    forall c | c in cells
      ensures c in mid && FreeAround(mid, c, k)
    {
    }
    ClaimKeepsApart(mid, cells, k);
  }

  /** The boxes place_ship collects are exactly the highlighted ones. */
  lemma HighlightedInOrder(highlighted: set<Pos>, active: seq<Pos>)
    requires forall p :: p in highlighted ==> InGrid(p)
    requires active == Keep(GridOrder(), highlighted)
    ensures forall p :: p in active <==> p in highlighted
    ensures highlighted != {} <==> |active| > 0
  {
    GridOrderCells();
    forall p
      ensures p in active <==> p in highlighted
    {
      KeepMember(GridOrder(), highlighted, p);
    }
    if highlighted != {} {
      var p :| p in highlighted;
      assert p in active;
    }
    if |active| > 0 {
      assert active[0] in active;
    }
  }

  /** Every box of the grid. */
  function GridCells(): set<Pos> {
    set i, j | 0 <= i < NbLinesBoxes && 0 <= j < NbColumnsBoxes :: (i, j)
  }

  /** A grid with every box free. */
  function FreeGrid(): Owners {
    map p | p in GridCells() :: None
  }

  /** rotate_ship can make two ships touch: destroyer_1 lies horizontally on
      (0, 0) and (1, 0), patroal_1 on (1, 2); turning the destroyer puts its
      second box on (0, 1), which is free but diagonal to (1, 2). */
  lemma RotateCanTouch()
    ensures var before := Claimed(Claimed(FreeGrid(), [(0, 0), (1, 0)], 3), [(1, 2)], 6);
            var cells := Line((0, 0), Flip(Horizontal), Roster[3].size);
            && Separated(before)
            && CanRotate(before, [(0, 0), (1, 0)], Horizontal, Roster[3].size)
            && !Separated(Claimed(Released(before, [(0, 0), (1, 0)]), cells, 3))
  {
    var before := Claimed(Claimed(FreeGrid(), [(0, 0), (1, 0)], 3), [(1, 2)], 6);
    assert (1, 2) in GridCells() && (0, 1) in GridCells();
    var cells := Line((0, 0), Flip(Horizontal), Roster[3].size);
    assert cells == [(0, 0), (0, 1)];
    var after := Claimed(Released(before, [(0, 0), (1, 0)]), cells, 3);
    assert after[(0, 1)] == Some(3) && after[(1, 2)] == Some(6);
    assert InBlock((0, 1), (1, 2));
    forall p | p in before && before[p].Some?
      ensures p == (0, 0) || p == (1, 0) || p == (1, 2)
    {
    }
  }
}
