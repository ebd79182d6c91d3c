/** The turn logic of navy/game.py (class Gameplay) in a game against the
    computer: who shoots next after each attack, and the computer's turn. */
module Battle {
  import opened Grid
  import opened Fleet
  import opened Ai

  /** The turn scheduled by hit_a_box once an attack is resolved: None when
      the attacked board is destroyed (the game is over), otherwise the new
      value of the turn arrow, true meaning that the local player shoots.
      Whoever shot keeps the turn exactly when the shot hit a ship. */
  function NextTurn(onOpposite: bool, hitted: bool, destroyed: bool): (t: Option<bool>)
    ensures t == None <==> destroyed
    ensures t.Some? ==> (t.value == onOpposite <==> hitted)
  {
    if destroyed then None
    else if onOpposite then Some(hitted)
    else Some(!hitted)
  }

  class Gameplay {
    /** The local player's own board, shot at by the computer. */
    const playerGrid: PlayerNavy
    /** The computer's board, shot at by the local player. */
    const oppositeGrid: OppositeNavy
    const ai: AI
    /** The turn arrow: true when the local player shoots. */
    var turn: bool
    /** Whether the boxes of the opposing board accept clicks. */
    var clickable: bool

    ghost predicate Valid()
      reads this, playerGrid, playerGrid.navy, oppositeGrid, oppositeGrid.navy, ai
    {
      && playerGrid.Valid() && oppositeGrid.Valid() && ai.Valid()
      && playerGrid.navy != oppositeGrid.navy
    }

    /** Gameplay.__init__ against the computer: the local board holds the
        player's ships, the opposing board hides the AI fleet; both boards
        are fresh, the AI is fresh, and the opposing board is clickable. */
    constructor (navySetup: seq<Ship>, aiSetup: seq<Ship>, defaultTurn: bool)
      ensures Valid() && turn == defaultTurn && clickable
      ensures playerGrid.navy.ships == navySetup && playerGrid.outbox == []
      ensures oppositeGrid.navy.ships == [] && oppositeGrid.aiSetup == aiSetup
      ensures playerGrid.navy.disabled == {} && oppositeGrid.navy.disabled == {}
      ensures forall p :: InGrid(p) ==> playerGrid.navy.cellMap[p] == NoHit && oppositeGrid.navy.cellMap[p] == NoHit
      ensures ai.boxHitted == [] && |ai.possibilities| == NbLinesBoxes * NbColumnsBoxes
      ensures forall k :: 0 <= k < |ai.possibilities| ==>
                ai.possibilities[k] == (k / NbColumnsBoxes, k % NbColumnsBoxes)
    {
      playerGrid := new PlayerNavy(navySetup);
      oppositeGrid := new OppositeNavy(aiSetup);
      ai := new AI();
      turn := defaultTurn;
      clickable := true;
    }

    /** Gameplay.hit_a_box: resolve an attack on one of the two boards, the
        other one untouched, and schedule the next turn; a lost turn makes
        the opposing board unclickable. */
    method HitABox(onOpposite: bool, pos: Pos) returns (hitted: bool, next: Option<bool>)
      requires Valid() && InGrid(pos)
      modifies this, playerGrid, playerGrid.navy, oppositeGrid, oppositeGrid.navy
      ensures Valid() && turn == old(turn)
      ensures onOpposite ==>
                && oppositeGrid.Attacked(pos, hitted)
                && next == NextTurn(true, hitted, oppositeGrid.navy.Destroyed())
                && unchanged(playerGrid, playerGrid.navy)
      ensures !onOpposite ==>
                && playerGrid.Attacked(pos, hitted)
                && next == NextTurn(false, hitted, playerGrid.navy.Destroyed())
                && unchanged(oppositeGrid, oppositeGrid.navy)
      ensures clickable == (if next == Some(false) then false else old(clickable))
    {
      if onOpposite {
        hitted, next := HitOpposite(pos);
      } else {
        hitted, next := HitPlayer(pos);
      }
    }

    /** hit_a_box on the computer's board (OppositeNavy.box_hit runs ai_box_hit offline). */
    method HitOpposite(pos: Pos) returns (hitted: bool, next: Option<bool>)
      requires Valid() && InGrid(pos)
      modifies this, oppositeGrid, oppositeGrid.navy
      ensures Valid() && turn == old(turn)
      ensures oppositeGrid.Attacked(pos, hitted)
      ensures next == NextTurn(true, hitted, oppositeGrid.navy.Destroyed())
      ensures clickable == (if next == Some(false) then false else old(clickable))
    {
      hitted := oppositeGrid.AiBoxHit(pos);
      next := NextTurn(true, hitted, oppositeGrid.navy.Destroyed());
      if next == Some(false) {
        clickable := false;
      }
    }

    /** hit_a_box on the local player's board (PlayerNavy.box_hit). */
    method HitPlayer(pos: Pos) returns (hitted: bool, next: Option<bool>)
      requires Valid() && InGrid(pos)
      modifies this, playerGrid, playerGrid.navy
      ensures Valid() && turn == old(turn)
      ensures playerGrid.Attacked(pos, hitted)
      ensures next == NextTurn(false, hitted, playerGrid.navy.Destroyed())
      ensures clickable == (if next == Some(false) then false else old(clickable))
    {
      hitted := playerGrid.BoxHit(pos);
      next := NextTurn(false, hitted, playerGrid.navy.Destroyed());
      if next == Some(false) {
        clickable := false;
      }
    }

    /** Gameplay.set_turn: move the turn arrow; the local player's turn
        makes the opposing board clickable, and the computer's turn makes it
        play next unless the local board is already destroyed. */
    method SetTurn(t: bool) returns (computerPlays: bool)
      requires Valid()
      modifies this
      ensures Valid() && turn == t
      ensures clickable == (t || old(clickable))
      ensures computerPlays <==> !t && !playerGrid.navy.Destroyed()
    {
      turn := t;
      if turn {
        clickable := true;
      }
      computerPlays := !turn && !playerGrid.navy.Destroyed();
    }

    /** The callback set_turn schedules for the computer: AI.play on the
        local board (which resynchronises the AI's lists in any case), then
        hit_a_box on the chosen cell. A failed pick stops there, after the
        resynchronisation, leaving the boards untouched. */
    method ComputerTurn() returns (shot: Option<Pos>, hitted: bool, next: Option<bool>)
      requires Valid()
      modifies this, playerGrid, playerGrid.navy, ai
      ensures Valid() && turn == old(turn)
      ensures unchanged(oppositeGrid, oppositeGrid.navy)
      ensures ai.Played(old(playerGrid.navy.cellMap), shot)
      ensures shot.Some? ==> InGrid(shot.value) && old(playerGrid.navy.cellMap)[shot.value] == NoHit
      ensures shot.None? ==> !hitted && next == None && unchanged(this, playerGrid, playerGrid.navy)
      ensures shot.Some? ==>
                && playerGrid.Attacked(shot.value, hitted)
                && next == NextTurn(false, hitted, playerGrid.navy.Destroyed())
                && clickable == (if next == Some(false) then false else old(clickable))
    {
      shot := ai.Play(playerGrid.navy.cellMap);
      hitted, next := false, None;
      if shot.Some? {
        hitted, next := HitPlayer(shot.value);
      }
    }
  }
}
