/** The per-step fight reports of `src/report.rs`: a full report that
    records the new round, the two attacks of a tick with the health left
    after each, and the winner; and a report that records only the winner
    and ignores everything else. */
module Reports {
  import opened Results

  /** `fight::Round`; its definition is not part of this model. */
  type Round = nat

  /** A fighter, named by its identity in the fight. */
  type FighterRef = nat

  /** One attack: who attacked whom, the two roll lists and the damage
      dealt. */
  datatype AttackReport = AttackReport(attacker: FighterRef, defender: FighterRef,
                                       firstRolls: seq<nat>, secondRolls: seq<nat>, damage: nat)

  class FullReport {
    var newRound: Option<Round>
    const attacks: array<Option<AttackReport>>
    const remainingHealths: array<Option<nat>>
    var winner: Option<FighterRef>

    /** Both slot arrays have the two slots of a tick. */
    ghost predicate Valid()
      reads this
    {
      attacks.Length == 2 && remainingHealths.Length == 2
    }

    /** `FullReport::new`: no round, no attacks, no healths, no winner. */
    constructor ()
      ensures Valid() && fresh(attacks) && fresh(remainingHealths)
      ensures newRound == None && winner == None
      ensures attacks[..] == [None, None] && remainingHealths[..] == [None, None]
    {
      newRound := None;
      attacks := new Option<AttackReport>[2](_ => None);
      remainingHealths := new Option<nat>[2](_ => None);
      winner := None;
    }

    /** `get_winner`. */
    function GetWinner(): (w: Option<FighterRef>)
      reads this
      ensures w == winner
    {
      winner
    }

    /** `set_winner`: the next `get_winner` yields `Some(w)`, whatever was
        set before; nothing else changes. */
    method SetWinner(w: FighterRef)
      modifies this`winner
      ensures GetWinner() == Some(w)
      ensures newRound == old(newRound)
    {
      winner := Some(w);
    }

    /** `set_new_round`: changes only the round. */
    method SetNewRound(round: Round)
      modifies this`newRound
      ensures newRound == Some(round)
      ensures winner == old(winner)
    {
      newRound := Some(round);
    }

    /** `set_attack`: fills slot `i` (0 or 1, the array index) of the attacks
        and of the remaining healths; the other slot, the round and the
        winner are untouched. */
    method SetAttack(i: nat, attack: AttackReport, currentHealth: nat)
      requires Valid() && i < 2
      modifies attacks, remainingHealths
      ensures attacks[i] == Some(attack) && remainingHealths[i] == Some(currentHealth)
      ensures attacks[1 - i] == old(attacks[1 - i])
      ensures remainingHealths[1 - i] == old(remainingHealths[1 - i])
      ensures newRound == old(newRound) && winner == old(winner)
    {
      attacks[i] := Some(attack);
      remainingHealths[i] := Some(currentHealth);
    }
  }

  class WinnerOnlyReport {
    var winner: Option<FighterRef>

    /** `WinnerOnlyReport::new`: no winner yet. */
    constructor ()
      ensures winner == None
    {
      winner := None;
    }

    /** `get_winner`. */
    function GetWinner(): (w: Option<FighterRef>)
      reads this
      ensures w == winner
    {
      winner
    }

    /** `set_winner`: the next `get_winner` yields `Some(w)`. */
    method SetWinner(w: FighterRef)
      modifies this
      ensures GetWinner() == Some(w)
    {
      winner := Some(w);
    }

    /** `set_new_round` records nothing. */
    method SetNewRound(round: Round)
      ensures GetWinner() == old(GetWinner())
    {
    }

    /** `set_attack` records nothing. */
    method SetAttack(i: nat, attack: AttackReport, currentHealth: nat)
      ensures GetWinner() == old(GetWinner())
    {
    }
  }
}
