/** The fighter enumeration of `src/bin/sim.rs` (`gen_fighters`): every
    attack / speed / endurance purchase within the point budget, with the
    rest of the budget spent on health, kept when `Fighter::new` accepts it.
    `Fighter::new` of this version of the program is not part of this model: whether it
    accepts a build is the parameter `accepts`. */
module SimGen {
  import opened Stats

  /** A build: attack, speed and endurance points bought, and the health
      the unspent budget buys. */
  datatype Build = Build(attack: nat, speed: nat, endurance: nat, health: nat)

  /** Whether `Fighter::new` returns `Ok` for a build. */
  type Acceptance = Build -> bool

  function Cost(attack: nat, speed: nat, endurance: nat): nat
    requires attack < |AttackCosts| && speed < |SpeedCosts| && endurance < |EnduranceCosts|
  {
    AttackCosts[attack] + SpeedCosts[speed] + EnduranceCosts[endurance]
  }

  /** Health bought with the points left: at least `BASE_HEALTH`, and the
      subtraction never goes below zero. */
  function HealthFor(cost: nat): (h: nat)
    requires cost <= TotalPoints
    ensures BaseHealth <= h <= TotalPoints * HealthPerPoint + BaseHealth
  {
    (TotalPoints - cost) * HealthPerPoint + BaseHealth
  }

  /** A build the enumeration considers: indices within the cost tables,
      cost within the budget, and health bought with the rest. */
  predicate Candidate(b: Build)
  {
    && b.attack < |AttackCosts| && b.speed < |SpeedCosts| && b.endurance < |EnduranceCosts|
    && Cost(b.attack, b.speed, b.endurance) <= TotalPoints
    && b.health == HealthFor(Cost(b.attack, b.speed, b.endurance))
  }

  /** Enumeration order: attack outermost, then speed, then endurance. */
  predicate Before(x: Build, y: Build)
  {
    || x.attack < y.attack
    || (x.attack == y.attack && x.speed < y.speed)
    || (x.attack == y.attack && x.speed == y.speed && x.endurance < y.endurance)
  }

  /** Each build comes after the one before it in enumeration order. */
  predicate Increasing(s: seq<Build>)
  {
    forall i :: 0 < i < |s| ==> Before(s[i - 1], s[i])
  }

  /** An increasing sequence lists every pair of its builds in enumeration
      order, so it has no repeats. */
  lemma {:induction false} IncreasingPairwise(s: seq<Build>)
    requires Increasing(s)
    ensures forall i, j :: 0 <= i < j < |s| ==> Before(s[i], s[j])
    decreases |s|
  {
    if |s| > 1 {
      var init := s[..|s| - 1];
      assert Increasing(init) by {
        forall i | 0 < i < |init| ensures Before(init[i - 1], init[i]) {
          assert init[i - 1] == s[i - 1] && init[i] == s[i];
        }
      }
      IncreasingPairwise(init);
      forall i, j | 0 <= i < j < |s| ensures Before(s[i], s[j]) {
        if j < |s| - 1 {
          assert s[i] == init[i] && s[j] == init[j];
        } else if i < j - 1 {
          assert s[i] == init[i] && s[j - 1] == init[j - 1];
          assert Before(s[i], s[j - 1]) && Before(s[j - 1], s[j]);
        }
      }
    }
  }

  /** What one innermost iteration pushes. */
  function Emit(attack: nat, speed: nat, endurance: nat, accepts: Acceptance): seq<Build>
    requires attack < |AttackCosts| && speed < |SpeedCosts| && endurance < |EnduranceCosts|
  {
    var cost := Cost(attack, speed, endurance);
    if cost <= TotalPoints && accepts(Build(attack, speed, endurance, HealthFor(cost)))
    then [Build(attack, speed, endurance, HealthFor(cost))]
    else []
  }

  /** What the endurance loop pushes for its first `endurance` values. */
  function Row(attack: nat, speed: nat, endurance: nat, accepts: Acceptance): seq<Build>
    requires attack < |AttackCosts| && speed < |SpeedCosts| && endurance <= |EnduranceCosts|
  {
    if endurance == 0 then []
    else Row(attack, speed, endurance - 1, accepts) + Emit(attack, speed, endurance - 1, accepts)
  }

  /** What the speed loop pushes for its first `speed` values. */
  function Plane(attack: nat, speed: nat, accepts: Acceptance): seq<Build>
    requires attack < |AttackCosts| && speed <= |SpeedCosts|
  {
    if speed == 0 then []
    else Plane(attack, speed - 1, accepts) + Row(attack, speed - 1, |EnduranceCosts|, accepts)
  }

  /** What the attack loop pushes for its first `attack` values. */
  function Cube(attack: nat, accepts: Acceptance): seq<Build>
    requires attack <= |AttackCosts|
  {
    if attack == 0 then []
    else Cube(attack - 1, accepts) + Plane(attack - 1, |SpeedCosts|, accepts)
  }

  /** Every build `gen_fighters` returns, in order. */
  function Generated(accepts: Acceptance): seq<Build>
  {
    Cube(|AttackCosts|, accepts)
  }

  /** Concatenating two increasing runs, where the last of the first comes
      before the first of the second, gives an increasing run. */
  lemma IncreasingConcat(x: seq<Build>, y: seq<Build>)
    requires Increasing(x) && Increasing(y)
    requires x != [] && y != [] ==> Before(x[|x| - 1], y[0])
    ensures Increasing(x + y)
  {
    forall i | 0 < i < |x + y| ensures Before((x + y)[i - 1], (x + y)[i]) {
      if i < |x| {
        assert (x + y)[i - 1] == x[i - 1] && (x + y)[i] == x[i];
      } else if i == |x| {
        assert (x + y)[i - 1] == x[|x| - 1] && (x + y)[i] == y[0];
      } else {
        assert (x + y)[i - 1] == y[i - 1 - |x|] && (x + y)[i] == y[i - |x|];
      }
    }
  }

  /** One innermost iteration pushes the build at its indices exactly when
      that build is a candidate and is accepted. */
  lemma EmitMembers(attack: nat, speed: nat, endurance: nat, accepts: Acceptance)
    requires attack < |AttackCosts| && speed < |SpeedCosts| && endurance < |EnduranceCosts|
    ensures forall b :: b in Emit(attack, speed, endurance, accepts) <==>
      b.attack == attack && b.speed == speed && b.endurance == endurance && Candidate(b) && accepts(b)
  {
  }

  lemma {:induction false} RowMembers(attack: nat, speed: nat, endurance: nat, accepts: Acceptance)
    requires attack < |AttackCosts| && speed < |SpeedCosts| && endurance <= |EnduranceCosts|
    ensures forall b :: b in Row(attack, speed, endurance, accepts) <==>
      b.attack == attack && b.speed == speed && b.endurance < endurance && Candidate(b) && accepts(b)
    decreases endurance
  {
    if endurance > 0 {
      RowMembers(attack, speed, endurance - 1, accepts);
      EmitMembers(attack, speed, endurance - 1, accepts);
      var init: seq<Build> := Row(attack, speed, endurance - 1, accepts);
      var last: seq<Build> := Emit(attack, speed, endurance - 1, accepts);
      forall b ensures b in Row(attack, speed, endurance, accepts) <==>
        b.attack == attack && b.speed == speed && b.endurance < endurance && Candidate(b) && accepts(b)
      {
        assert b in init + last <==> b in init || b in last;
      }
    }
  }

  lemma {:induction false} PlaneMembers(attack: nat, speed: nat, accepts: Acceptance)
    requires attack < |AttackCosts| && speed <= |SpeedCosts|
    ensures forall b :: b in Plane(attack, speed, accepts) <==>
      b.attack == attack && b.speed < speed && Candidate(b) && accepts(b)
    decreases speed
  {
    if speed > 0 {
      PlaneMembers(attack, speed - 1, accepts);
      RowMembers(attack, speed - 1, |EnduranceCosts|, accepts);
      var init: seq<Build> := Plane(attack, speed - 1, accepts);
      var row: seq<Build> := Row(attack, speed - 1, |EnduranceCosts|, accepts);
      forall b ensures b in Plane(attack, speed, accepts) <==>
        b.attack == attack && b.speed < speed && Candidate(b) && accepts(b)
      {
        assert b in init + row <==> b in init || b in row;
      }
    }
  }

  lemma {:induction false} CubeMembers(attack: nat, accepts: Acceptance)
    requires attack <= |AttackCosts|
    ensures forall b :: b in Cube(attack, accepts) <==> b.attack < attack && Candidate(b) && accepts(b)
    decreases attack
  {
    if attack > 0 {
      CubeMembers(attack - 1, accepts);
      PlaneMembers(attack - 1, |SpeedCosts|, accepts);
      var init: seq<Build> := Cube(attack - 1, accepts);
      var plane: seq<Build> := Plane(attack - 1, |SpeedCosts|, accepts);
      forall b ensures b in Cube(attack, accepts) <==> b.attack < attack && Candidate(b) && accepts(b) {
        assert b in init + plane <==> b in init || b in plane;
      }
    }
  }

  /** Every build of `s` has the given attack and speed, and endurance
      below `endurance`. */
  predicate InRow(s: seq<Build>, attack: nat, speed: nat, endurance: nat)
  {
    forall i :: 0 <= i < |s| ==> s[i].attack == attack && s[i].speed == speed && s[i].endurance < endurance
  }

  /** Every build of `s` has the given attack, and speed below `speed`. */
  predicate InPlane(s: seq<Build>, attack: nat, speed: nat)
  {
    forall i :: 0 <= i < |s| ==> s[i].attack == attack && s[i].speed < speed
  }

  /** Every build of `s` has attack below `attack`. */
  predicate InCube(s: seq<Build>, attack: nat)
  {
    forall i :: 0 <= i < |s| ==> s[i].attack < attack
  }

  /** Appending the build pushed for endurance `e` to an increasing run of
      builds of lower endurance keeps it increasing. */
  lemma RowJoin(init: seq<Build>, last: seq<Build>, attack: nat, speed: nat, e: nat)
    requires Increasing(init) && InRow(init, attack, speed, e)
    requires |last| <= 1 && InRow(last, attack, speed, e + 1)
    requires forall j :: 0 <= j < |last| ==> last[j].endurance == e
    ensures Increasing(init + last) && InRow(init + last, attack, speed, e + 1)
  {
    if init != [] && last != [] {
      assert Before(init[|init| - 1], last[0]);
    }
    IncreasingConcat(init, last);
    forall i | 0 <= i < |init + last|
      ensures (init + last)[i].attack == attack && (init + last)[i].speed == speed
           && (init + last)[i].endurance < e + 1
    {
      if i < |init| {
        assert (init + last)[i] == init[i];
      } else {
        assert (init + last)[i] == last[i - |init|];
      }
    }
  }

  /** Appending the row of speed `sp` to an increasing run of builds of
      lower speed keeps it increasing. */
  lemma PlaneJoin(init: seq<Build>, row: seq<Build>, attack: nat, sp: nat, e: nat)
    requires Increasing(init) && InPlane(init, attack, sp)
    requires Increasing(row) && InRow(row, attack, sp, e)
    ensures Increasing(init + row) && InPlane(init + row, attack, sp + 1)
  {
    if init != [] && row != [] {
      assert init[|init| - 1].speed < sp && row[0].speed == sp;
    }
    IncreasingConcat(init, row);
    forall i | 0 <= i < |init + row|
      ensures (init + row)[i].attack == attack && (init + row)[i].speed < sp + 1
    {
      if i < |init| {
        assert (init + row)[i] == init[i];
      } else {
        assert (init + row)[i] == row[i - |init|];
      }
    }
  }

  /** Appending the plane of attack `a` to an increasing run of builds of
      lower attack keeps it increasing. */
  lemma CubeJoin(init: seq<Build>, plane: seq<Build>, a: nat, sp: nat)
    requires Increasing(init) && InCube(init, a)
    requires Increasing(plane) && InPlane(plane, a, sp)
    ensures Increasing(init + plane) && InCube(init + plane, a + 1)
  {
    if init != [] && plane != [] {
      assert init[|init| - 1].attack < a && plane[0].attack == a;
    }
    IncreasingConcat(init, plane);
    forall i | 0 <= i < |init + plane| ensures (init + plane)[i].attack < a + 1 {
      if i < |init| {
        assert (init + plane)[i] == init[i];
      } else {
        assert (init + plane)[i] == plane[i - |init|];
      }
    }
  }

  /** The endurance loop pushes builds of its own attack and speed, below
      the endurance it has reached, in increasing endurance. */
  lemma {:induction false} RowShape(attack: nat, speed: nat, endurance: nat, accepts: Acceptance)
    requires attack < |AttackCosts| && speed < |SpeedCosts| && endurance <= |EnduranceCosts|
    ensures Increasing(Row(attack, speed, endurance, accepts))
    ensures InRow(Row(attack, speed, endurance, accepts), attack, speed, endurance)
    decreases endurance
  {
    if endurance > 0 {
      RowShape(attack, speed, endurance - 1, accepts);
      RowJoin(Row(attack, speed, endurance - 1, accepts), Emit(attack, speed, endurance - 1, accepts),
              attack, speed, endurance - 1);
    }
  }

  /** The speed loop pushes builds of its own attack, below the speed it
      has reached, in enumeration order. */
  lemma {:induction false} PlaneShape(attack: nat, speed: nat, accepts: Acceptance)
    requires attack < |AttackCosts| && speed <= |SpeedCosts|
    ensures Increasing(Plane(attack, speed, accepts))
    ensures InPlane(Plane(attack, speed, accepts), attack, speed)
    decreases speed
  {
    if speed > 0 {
      PlaneShape(attack, speed - 1, accepts);
      RowShape(attack, speed - 1, |EnduranceCosts|, accepts);
      PlaneJoin(Plane(attack, speed - 1, accepts), Row(attack, speed - 1, |EnduranceCosts|, accepts),
                attack, speed - 1, |EnduranceCosts|);
    }
  }

  /** The attack loop pushes builds below the attack it has reached, in
      enumeration order. */
  lemma {:induction false} CubeShape(attack: nat, accepts: Acceptance)
    requires attack <= |AttackCosts|
    ensures Increasing(Cube(attack, accepts))
    ensures InCube(Cube(attack, accepts), attack)
    decreases attack
  {
    if attack > 0 {
      CubeShape(attack - 1, accepts);
      PlaneShape(attack - 1, |SpeedCosts|, accepts);
      CubeJoin(Cube(attack - 1, accepts), Plane(attack - 1, |SpeedCosts|, accepts), attack - 1, |SpeedCosts|);
    }
  }

  /** `gen_fighters` yields exactly the accepted builds whose attack, speed
      and endurance cost fits the budget, each with the health the rest of
      the budget buys, in enumeration order and without repeats. */
  lemma GeneratedExactly(accepts: Acceptance)
    ensures forall b :: b in Generated(accepts) <==> Candidate(b) && accepts(b)
    ensures var g := Generated(accepts);
      forall i, j :: 0 <= i < j < |g| ==> Before(g[i], g[j])
  {
    CubeMembers(|AttackCosts|, accepts);
    CubeShape(|AttackCosts|, accepts);
    IncreasingPairwise(Generated(accepts));
  }

  /** The attack cost table is not monotone: its entry 18 alone exceeds the
      whole budget, so no generated build buys attack 18, while the dearer
      levels 19 and 20 stay affordable. */
  lemma NoAttackEighteen(accepts: Acceptance)
    ensures forall b :: b in Generated(accepts) ==> b.attack != 18
    ensures TotalPoints < AttackCosts[18]
    ensures AttackCosts[20] <= TotalPoints && AttackCosts[19] <= TotalPoints
    ensures AttackCosts[17] < AttackCosts[19] < AttackCosts[18]
  {
    GeneratedExactly(accepts);
  }

  /** Regrouping a concatenation. Stated once here so that the loops of
      `GenFighters` and `PushRow` can regroup the list they build without
      the solver searching for it. */
  lemma ConcatAssociative<T>(a: seq<T>, b: seq<T>, c: seq<T>)
    ensures (a + b) + c == a + (b + c)
  {
  }

  /** `gen_fighters`: the nested attack / speed / endurance loops. */
  method GenFighters(accepts: Acceptance) returns (fighters: seq<Build>)
    ensures fighters == Generated(accepts)
  {
    fighters := [];
    var attack := 0;
    while attack < |AttackCosts|
      invariant attack <= |AttackCosts|
      invariant fighters == Cube(attack, accepts)
    {
      ghost var earlierAttacks := fighters;
      var speed := 0;
      while speed < |SpeedCosts|
        invariant speed <= |SpeedCosts|
        invariant fighters == earlierAttacks + Plane(attack, speed, accepts)
      {
        fighters := PushRow(fighters, attack, speed, accepts);
        ConcatAssociative(earlierAttacks, Plane(attack, speed, accepts),
                          Row(attack, speed, |EnduranceCosts|, accepts));
        speed := speed + 1;
      }
      attack := attack + 1;
    }
  }

  /** The endurance loop of `gen_fighters` for one attack and speed: pushes
      each accepted build within the budget onto `fighters`. */
  method PushRow(fighters: seq<Build>, attack: nat, speed: nat, accepts: Acceptance)
    returns (pushed: seq<Build>)
    requires attack < |AttackCosts| && speed < |SpeedCosts|
    ensures pushed == fighters + Row(attack, speed, |EnduranceCosts|, accepts)
  {
    pushed := fighters;
    var endurance := 0;
    while endurance < |EnduranceCosts|
      invariant endurance <= |EnduranceCosts|
      invariant pushed == fighters + Row(attack, speed, endurance, accepts)
    {
      ghost var done := pushed;
      var statCosts := Cost(attack, speed, endurance);
      if statCosts <= TotalPoints {
        var health := HealthFor(statCosts);
        var fighter := Build(attack, speed, endurance, health);
        if accepts(fighter) {
          pushed := pushed + [fighter];
        }
      }
      assert pushed == done + Emit(attack, speed, endurance, accepts);
      ConcatAssociative(fighters, Row(attack, speed, endurance, accepts),
                        Emit(attack, speed, endurance, accepts));
      endurance := endurance + 1;
    }
  }

}
