/** What one arena tick guarantees, proved about the functions of ArenaModel. */
module ArenaLemmas {
  import opened Barracks
  import opened ArenaModel

  // ---------------------------------------------------------------------------
  // Positions and shape

  lemma SetAtEffect(teams: seq<CombatTeam>, p: Pos, e: CombatEntity)
    ensures SameShape(SetAt(teams, p, e), teams)
    ensures forall q :: ValidPos(teams, q) ==>
      At(SetAt(teams, p, e), q) == if q == p then e else At(teams, q)
  {
  }

  lemma {:induction false} ActUpToShape(teams: seq<CombatTeam>, turn: seq<Pos>, draws: seq<nat>, n: nat)
    requires n <= |turn|
    ensures SameShape(ActUpTo(teams, turn, draws, n).teams, teams)
  {
    if n > 0 {
      ActUpToShape(teams, turn, draws, n - 1);
      var prev := ActUpTo(teams, turn, draws, n - 1);
      if prev.Acting? {
        var p := turn[n - 1];
        if ValidPos(prev.teams, p) && At(prev.teams, p).currentHp > 0 {
          var actor := At(prev.teams, p);
          var pool := TargetPool(prev.teams, actor.team);
          if |pool| > 0 {
            var target := pool[Choose(draws, n - 1, |pool|)];
            var hit := Hit(prev.teams, target, Attack(actor));
            SetAtEffect(prev.teams, target, if ValidPos(prev.teams, target) then At(prev.teams, target) else actor);
            if ValidPos(hit, p) {
              SetAtEffect(hit, p, At(hit, p).(speedMeter := 0));
            }
          }
        }
      }
    }
  }

  /** Once `random.choice` has raised, the later entries of the turn list do nothing. */
  lemma {:induction false} RaisedSticks(teams: seq<CombatTeam>, turn: seq<Pos>, draws: seq<nat>, n: nat, m: nat)
    requires n <= m <= |turn|
    requires ActUpTo(teams, turn, draws, n).Raised?
    ensures ActUpTo(teams, turn, draws, m) == ActUpTo(teams, turn, draws, n)
    decreases m - n
  {
    if n < m {
      RaisedSticks(teams, turn, draws, n, m - 1);
    }
  }

  // ---------------------------------------------------------------------------
  // Collecting the ready units

  lemma IncreasingConcat(a: seq<Pos>, b: seq<Pos>)
    requires Increasing(a) && Increasing(b)
    requires forall i, j :: 0 <= i < |a| && 0 <= j < |b| ==> PosLess(a[i], b[j])
    ensures Increasing(a + b)
  {
    forall i, j | 0 <= i < j < |a + b| ensures PosLess((a + b)[i], (a + b)[j]) {
      if j < |a| {
        assert (a + b)[i] == a[i] && (a + b)[j] == a[j];
      } else if i < |a| {
        assert (a + b)[i] == a[i] && (a + b)[j] == b[j - |a|];
      } else {
        assert (a + b)[i] == b[i - |a|] && (a + b)[j] == b[j - |a|];
      }
    }
  }

  lemma {:induction false} ReadyInTeamFacts(us: seq<CombatEntity>, i: nat)
    ensures Increasing(ReadyInTeam(us, i))
    ensures forall p :: p in ReadyInTeam(us, i) <==>
      p.team == i && p.unit < |us| && us[p.unit].speedMeter >= Threshold
    decreases |us|
  {
    if us != [] {
      var init := us[..|us| - 1];
      ReadyInTeamFacts(init, i);
      var a := ReadyInTeam(init, i);
      var b := if us[|us| - 1].speedMeter >= Threshold then [Pos(i, |us| - 1)] else [];
      forall x, y | 0 <= x < |a| && 0 <= y < |b| ensures PosLess(a[x], b[y]) {
        assert a[x] in a;
      }
      IncreasingConcat(a, b);
      forall p ensures p in a + b <==> p.team == i && p.unit < |us| && us[p.unit].speedMeter >= Threshold {
        if p.unit < |us| - 1 {
          assert init[p.unit] == us[p.unit];
        }
      }
    }
  }

  /** The collected list holds exactly the ready positions, each once, in collection order. */
  lemma {:induction false} ReadyUpToFacts(teams: seq<CombatTeam>, n: nat)
    requires n <= |teams|
    ensures Increasing(ReadyUpTo(teams, n))
    ensures forall p :: p in ReadyUpTo(teams, n) <==>
      p.team < n && ValidPos(teams, p) && At(teams, p).speedMeter >= Threshold
  {
    if n > 0 {
      ReadyUpToFacts(teams, n - 1);
      ReadyInTeamFacts(teams[n - 1].unitList, n - 1);
      var a := ReadyUpTo(teams, n - 1);
      var b := ReadyInTeam(teams[n - 1].unitList, n - 1);
      forall x, y | 0 <= x < |a| && 0 <= y < |b| ensures PosLess(a[x], b[y]) {
        assert a[x] in a && b[y] in b;
      }
      IncreasingConcat(a, b);
    }
  }

  // ---------------------------------------------------------------------------
  // speed_sort

  lemma {:induction false} InsertFacts(s: seq<Pos>, x: Pos, teams: seq<CombatTeam>)
    ensures multiset(Insert(s, x, teams)) == multiset(s) + multiset{x}
    ensures |Insert(s, x, teams)| == |s| + 1
    decreases |s|
  {
    if s != [] && MeterAt(teams, s[|s| - 1]) < MeterAt(teams, x) {
      InsertFacts(s[..|s| - 1], x, teams);
      assert s == s[..|s| - 1] + [s[|s| - 1]];
    }
  }

  lemma {:induction false} InsertMembers(s: seq<Pos>, x: Pos, teams: seq<CombatTeam>)
    ensures forall y :: y in Insert(s, x, teams) <==> y in s || y == x
    decreases |s|
  {
    if s != [] && MeterAt(teams, s[|s| - 1]) < MeterAt(teams, x) {
      InsertMembers(s[..|s| - 1], x, teams);
      assert s == s[..|s| - 1] + [s[|s| - 1]];
    }
  }

  /** A stable list stays stable when an element that every member goes before is appended. */
  lemma AppendStable(front: seq<Pos>, last: Pos, teams: seq<CombatTeam>)
    requires StableOrder(front, teams)
    requires forall y :: y in front ==> Before(teams, y, last)
    ensures StableOrder(front + [last], teams)
  {
    var r := front + [last];
    forall i, j | 0 <= i < j < |r| ensures Before(teams, r[i], r[j]) {
      assert r[i] == front[i];
      if j < |front| {
        assert r[j] == front[j];
      } else {
        assert r[j] == last;
        assert front[i] in front;
      }
    }
  }

  lemma {:induction false} InsertStable(s: seq<Pos>, x: Pos, teams: seq<CombatTeam>)
    requires StableOrder(s, teams)
    requires forall k :: 0 <= k < |s| ==> PosLess(s[k], x)
    ensures StableOrder(Insert(s, x, teams), teams)
    decreases |s|
  {
    if s != [] {
      var n := |s|;
      var last := s[n - 1];
      var init := s[..n - 1];
      if MeterAt(teams, last) < MeterAt(teams, x) {
        assert StableOrder(init, teams) by {
          forall i, j | 0 <= i < j < |init| ensures Before(teams, init[i], init[j]) {
            assert init[i] == s[i] && init[j] == s[j];
          }
        }
        InsertStable(init, x, teams);
        InsertMembers(init, x, teams);
        var front := Insert(init, x, teams);
        forall y | y in front ensures Before(teams, y, last) {
          if y != x {
            var k :| 0 <= k < |init| && init[k] == y;
            assert s[k] == y;
          }
        }
        AppendStable(front, last, teams);
      } else {
        forall y | y in s ensures Before(teams, y, x) {
          var k :| 0 <= k < n && s[k] == y;
          if k < n - 1 {
            assert Before(teams, s[k], s[n - 1]);
          }
        }
        AppendStable(s, x, teams);
      }
    }
  }

  lemma {:induction false} SortPerm(s: seq<Pos>, teams: seq<CombatTeam>)
    ensures multiset(SortByMeter(s, teams)) == multiset(s)
    ensures |SortByMeter(s, teams)| == |s|
    decreases |s|
  {
    if s != [] {
      var init := s[..|s| - 1];
      SortPerm(init, teams);
      InsertFacts(SortByMeter(init, teams), s[|s| - 1], teams);
      assert s == init + [s[|s| - 1]];
    }
  }

  /**
   * The sort keeps exactly the elements it is given, and on a list in
   * collection order it is stable: larger meters first, equal meters in
   * collection order.
   */
  lemma {:induction false} SortFacts(s: seq<Pos>, teams: seq<CombatTeam>)
    ensures multiset(SortByMeter(s, teams)) == multiset(s)
    ensures |SortByMeter(s, teams)| == |s|
    ensures Increasing(s) ==> StableOrder(SortByMeter(s, teams), teams)
    decreases |s|
  {
    SortPerm(s, teams);
    if s != [] && Increasing(s) {
      var init := s[..|s| - 1];
      var last := s[|s| - 1];
      assert Increasing(init) by {
        forall i, j | 0 <= i < j < |init| ensures PosLess(init[i], init[j]) {
          assert init[i] == s[i] && init[j] == s[j];
        }
      }
      SortFacts(init, teams);
      SortPerm(init, teams);
      var sortedInit := SortByMeter(init, teams);
      forall k | 0 <= k < |sortedInit| ensures PosLess(sortedInit[k], last) {
        assert sortedInit[k] in multiset(init);
        var m :| 0 <= m < |init| && init[m] == sortedInit[k];
        assert s[m] == init[m];
      }
      InsertStable(sortedInit, last, teams);
    }
  }

  lemma ChargeAllAt(teams: seq<CombatTeam>)
    ensures SameShape(ChargeAll(teams), teams)
    ensures forall p :: ValidPos(teams, p) ==> At(ChargeAll(teams), p) == Charge(At(teams, p))
  {
  }

  /**
   * The turn list of a tick: a unit is in it exactly when its meter after the
   * gain reaches the threshold; the list is sorted by charged meter, largest
   * first, ties in collection order, and so holds no unit twice.
   */
  lemma TurnListFacts(teams: seq<CombatTeam>)
    ensures var charged := ChargeAll(teams);
      var turn := TurnList(charged);
      && (forall p :: p in turn <==>
            ValidPos(teams, p) && At(teams, p).speedMeter + At(teams, p).template.speed >= Threshold)
      && StableOrder(turn, charged)
      && SortedDesc(turn, charged)
      && (forall i, j :: 0 <= i < j < |turn| ==> turn[i] != turn[j])
      && multiset(turn) == multiset(Ready(charged))
  {
    var charged := ChargeAll(teams);
    ChargeAllAt(teams);
    ReadyUpToFacts(charged, |charged|);
    SortFacts(Ready(charged), charged);
    var turn := TurnList(charged);
    forall p ensures p in turn <==> p in Ready(charged) {
      assert p in turn <==> p in multiset(turn);
    }
  }

  // ---------------------------------------------------------------------------
  // The target pool

  lemma TeamPositionsFacts(i: nat, len: nat)
    ensures Increasing(TeamPositions(i, len))
    ensures forall p :: p in TeamPositions(i, len) <==> p.team == i && p.unit < len
  {
    var s := TeamPositions(i, len);
    forall p: Pos | p.team == i && p.unit < len ensures p in s {
      assert s[p.unit] == p;
    }
  }

  lemma {:induction false} PoolUpToMembers(teams: seq<CombatTeam>, own: TeamRef, n: nat)
    requires n <= |teams|
    ensures forall p :: p in PoolUpTo(teams, own, n) <==>
      p.team < n && ValidPos(teams, p) && own != TeamAt(p.team)
  {
    if n > 0 {
      var a := PoolUpTo(teams, own, n - 1);
      PoolUpToMembers(teams, own, n - 1);
      if own != TeamAt(n - 1) {
        var b := TeamPositions(n - 1, |teams[n - 1].unitList|);
        TeamPositionsFacts(n - 1, |teams[n - 1].unitList|);
        assert PoolUpTo(teams, own, n) == a + b;
        forall p: Pos
          ensures p in a + b <==> p.team < n && ValidPos(teams, p) && own != TeamAt(p.team)
        {
          assert p in a + b <==> p in a || p in b;
        }
      } else {
        assert PoolUpTo(teams, own, n) == a + [];
        assert a + [] == a;
      }
    }
  }

  lemma {:induction false} PoolUpToIncreasing(teams: seq<CombatTeam>, own: TeamRef, n: nat)
    requires n <= |teams|
    ensures Increasing(PoolUpTo(teams, own, n))
  {
    if n > 0 {
      PoolUpToIncreasing(teams, own, n - 1);
      if own != TeamAt(n - 1) {
        PoolUpToAddTeam(teams, own, n);
      } else {
        var a := PoolUpTo(teams, own, n - 1);
        assert PoolUpTo(teams, own, n) == a + [];
        assert a + [] == a;
      }
    }
  }

  /** Adding a team other than the actor's keeps the pool increasing. */
  lemma PoolUpToAddTeam(teams: seq<CombatTeam>, own: TeamRef, n: nat)
    requires 0 < n <= |teams| && own != TeamAt(n - 1)
    requires Increasing(PoolUpTo(teams, own, n - 1))
    ensures Increasing(PoolUpTo(teams, own, n))
  {
    var a := PoolUpTo(teams, own, n - 1);
    var b := TeamPositions(n - 1, |teams[n - 1].unitList|);
    assert PoolUpTo(teams, own, n) == a + b;
    assert Increasing(b) && forall q :: q in b ==> q.team == n - 1 by {
      TeamPositionsFacts(n - 1, |teams[n - 1].unitList|);
    }
    assert forall q :: q in a ==> q.team < n - 1 by {
      PoolUpToMembers(teams, own, n - 1);
    }
    IncreasingBelow(a, b, n - 1);
  }

  /** An increasing run of earlier teams followed by one of team `t` is increasing. */
  lemma IncreasingBelow(a: seq<Pos>, b: seq<Pos>, t: nat)
    requires Increasing(a) && Increasing(b)
    requires forall q :: q in a ==> q.team < t
    requires forall q :: q in b ==> q.team == t
    ensures Increasing(a + b)
  {
    forall x, y | 0 <= x < |a| && 0 <= y < |b| ensures PosLess(a[x], b[y]) {
      assert a[x] in a && b[y] in b;
    }
    IncreasingConcat(a, b);
  }

  lemma PoolUpToFacts(teams: seq<CombatTeam>, own: TeamRef, n: nat)
    requires n <= |teams|
    ensures Increasing(PoolUpTo(teams, own, n))
    ensures forall p :: p in PoolUpTo(teams, own, n) <==>
      p.team < n && ValidPos(teams, p) && own != TeamAt(p.team)
  {
    PoolUpToMembers(teams, own, n);
    PoolUpToIncreasing(teams, own, n);
  }

  /**
   * The pool holds, each once and in collection order, every unit of every
   * team other than the one the actor names, whatever its hit points.
   */
  lemma TargetPoolFacts(teams: seq<CombatTeam>, own: TeamRef)
    ensures Increasing(TargetPool(teams, own))
    ensures forall p :: p in TargetPool(teams, own) <==> ValidPos(teams, p) && own != TeamAt(p.team)
  {
    PoolUpToFacts(teams, own, |teams|);
  }

  // ---------------------------------------------------------------------------
  // One turn

  /**
   * The damage an entity deals is its template's strength, whatever its hit
   * points, meter, alive flag or team.
   */
  lemma AttackIgnoresState(e: CombatEntity, hp: int, meter: int, alive: bool, team: TeamRef)
    ensures Attack(e.(currentHp := hp, speedMeter := meter, alive := alive, team := team)) == Attack(e)
    ensures Attack(e) == e.template.strength
  {
  }

  /**
   * The turn of the unit at `p`: a unit with no hit points left does nothing;
   * a live one with nobody to hit raises; otherwise the chosen target, from
   * a team other than the one the actor names, loses exactly the actor's
   * strength (no clamp at zero) and dies at zero or below, the actor's meter
   * goes to 0, and nothing else changes.
   */
  lemma ActOneEffect(teams: seq<CombatTeam>, p: Pos, draws: seq<nat>, slot: nat)
    requires ValidPos(teams, p)
    ensures SameShape(ActOne(teams, p, draws, slot).teams, teams)
    ensures At(teams, p).currentHp <= 0 ==> ActOne(teams, p, draws, slot) == Acting(teams)
    ensures At(teams, p).currentHp > 0 && TargetPool(teams, At(teams, p).team) == [] ==>
      ActOne(teams, p, draws, slot) == Raised(teams)
    ensures At(teams, p).currentHp > 0 && TargetPool(teams, At(teams, p).team) != [] ==>
      var actor := At(teams, p);
      var pool := TargetPool(teams, actor.team);
      var target := pool[Choose(draws, slot, |pool|)];
      var r := ActOne(teams, p, draws, slot).teams;
      && ActOne(teams, p, draws, slot).Acting?
      && ValidPos(teams, target) && actor.team != TeamAt(target.team)
      && forall q :: ValidPos(teams, q) ==>
        && At(r, q).template == At(teams, q).template
        && At(r, q).team == At(teams, q).team
        && At(r, q).currentHp == At(teams, q).currentHp - (if q == target then actor.template.strength else 0)
        && At(r, q).alive == (At(teams, q).alive && !(q == target && At(r, q).currentHp <= 0))
        && At(r, q).speedMeter == (if q == p then 0 else At(teams, q).speedMeter)
  {
    var actor := At(teams, p);
    var pool := TargetPool(teams, actor.team);
    if actor.currentHp > 0 && pool != [] {
      var target := pool[Choose(draws, slot, |pool|)];
      assert ValidPos(teams, target) && actor.team != TeamAt(target.team) by {
        assert target in pool;
        TargetPoolFacts(teams, actor.team);
      }
      HitThenReset(teams, target, p, Attack(actor));
    }
  }

  /** The target loses `damage` hit points and dies at zero or below, then the actor's meter goes to 0. */
  lemma HitThenReset(teams: seq<CombatTeam>, target: Pos, p: Pos, damage: int)
    requires ValidPos(teams, target) && ValidPos(teams, p)
    ensures var r := ResetMeter(Hit(teams, target, damage), p);
      && SameShape(r, teams)
      && forall q :: ValidPos(teams, q) ==>
        && At(r, q).template == At(teams, q).template
        && At(r, q).team == At(teams, q).team
        && At(r, q).currentHp == At(teams, q).currentHp - (if q == target then damage else 0)
        && At(r, q).alive == (At(teams, q).alive && !(q == target && At(r, q).currentHp <= 0))
        && At(r, q).speedMeter == (if q == p then 0 else At(teams, q).speedMeter)
  {
    var hit := Hit(teams, target, damage);
    var r := ResetMeter(hit, p);
    HitEffect(teams, target, damage);
    ResetMeterEffect(hit, p);
    forall q | ValidPos(teams, q)
      ensures && At(r, q).template == At(teams, q).template
              && At(r, q).team == At(teams, q).team
              && At(r, q).currentHp == At(teams, q).currentHp - (if q == target then damage else 0)
              && At(r, q).alive == (At(teams, q).alive && !(q == target && At(r, q).currentHp <= 0))
              && At(r, q).speedMeter == (if q == p then 0 else At(teams, q).speedMeter)
    {
      assert ValidPos(hit, q);
    }
  }

  lemma HitEffect(teams: seq<CombatTeam>, target: Pos, damage: int)
    requires ValidPos(teams, target)
    ensures SameShape(Hit(teams, target, damage), teams)
    ensures forall q :: ValidPos(teams, q) ==>
      At(Hit(teams, target, damage), q) ==
        if q == target
        then At(teams, q).(currentHp := At(teams, q).currentHp - damage,
                           alive := At(teams, q).alive && At(teams, q).currentHp - damage > 0)
        else At(teams, q)
  {
    var t := At(teams, target);
    var hp := t.currentHp - damage;
    SetAtEffect(teams, target, t.(currentHp := hp, alive := if hp <= 0 then false else t.alive));
  }

  lemma ResetMeterEffect(teams: seq<CombatTeam>, p: Pos)
    requires ValidPos(teams, p)
    ensures SameShape(ResetMeter(teams, p), teams)
    ensures forall q :: ValidPos(teams, q) ==>
      At(ResetMeter(teams, p), q) == if q == p then At(teams, q).(speedMeter := 0) else At(teams, q)
  {
    SetAtEffect(teams, p, At(teams, p).(speedMeter := 0));
  }

  /** Entity invariant of the battle: `alive` exactly when hit points are positive. */
  predicate AliveFlagHolds(e: CombatEntity) {
    e.alive == (e.currentHp > 0)
  }

  ghost predicate EveryUnit(teams: seq<CombatTeam>, alive: bool, nonNegative: bool) {
    forall p :: ValidPos(teams, p) ==>
      (alive ==> AliveFlagHolds(At(teams, p))) && (nonNegative ==> At(teams, p).template.strength >= 0)
  }

  /** The facts about one entity that survive every turn. */
  ghost predicate Kept(charged: seq<CombatTeam>, r: seq<CombatTeam>, done: seq<Pos>, q: Pos)
    requires ValidPos(charged, q) && ValidPos(r, q)
  {
    && At(r, q).template == At(charged, q).template
    && At(r, q).team == At(charged, q).team
    && (At(r, q).speedMeter == At(charged, q).speedMeter || (q in done && At(r, q).speedMeter == 0))
    && (!At(charged, q).alive ==> !At(r, q).alive)
  }

  /**
   * After the first `n` turns no template or team field has changed, an
   * entity's meter is its charged value or, if it is in the turn list (it
   * acted), 0, and a dead entity stays dead.
   */
  lemma {:induction false} TurnsEffect(charged: seq<CombatTeam>, turn: seq<Pos>, draws: seq<nat>, n: nat)
    requires n <= |turn|
    ensures SameShape(ActUpTo(charged, turn, draws, n).teams, charged)
    ensures forall q :: ValidPos(charged, q) ==> Kept(charged, ActUpTo(charged, turn, draws, n).teams, turn[..n], q)
  {
    if n > 0 {
      TurnsEffect(charged, turn, draws, n - 1);
      TurnsEffectStep(charged, turn, draws, n);
    }
  }

  lemma TurnsEffectStep(charged: seq<CombatTeam>, turn: seq<Pos>, draws: seq<nat>, n: nat)
    requires 0 < n <= |turn|
    requires SameShape(ActUpTo(charged, turn, draws, n - 1).teams, charged)
    requires forall q :: ValidPos(charged, q) ==>
      Kept(charged, ActUpTo(charged, turn, draws, n - 1).teams, turn[..n - 1], q)
    ensures SameShape(ActUpTo(charged, turn, draws, n).teams, charged)
    ensures forall q :: ValidPos(charged, q) ==> Kept(charged, ActUpTo(charged, turn, draws, n).teams, turn[..n], q)
  {
    var prev := ActUpTo(charged, turn, draws, n - 1);
    var r := ActUpTo(charged, turn, draws, n).teams;
    var p := turn[n - 1];
    assert turn[..n] == turn[..n - 1] + [p];
    if prev.Acting? {
      ActOneKeeps(prev.teams, p, draws, n - 1);
    }
    KeptChain(charged, prev.teams, r, turn[..n - 1], p);
  }

  /** What one turn keeps of every entity. */
  lemma ActOneKeeps(teams: seq<CombatTeam>, p: Pos, draws: seq<nat>, slot: nat)
    ensures SameShape(ActOne(teams, p, draws, slot).teams, teams)
    ensures forall q :: ValidPos(teams, q) ==> Kept(teams, ActOne(teams, p, draws, slot).teams, [p], q)
  {
    if ValidPos(teams, p) {
      ActOneEffect(teams, p, draws, slot);
      var r := ActOne(teams, p, draws, slot).teams;
      forall q | ValidPos(teams, q) ensures Kept(teams, r, [p], q) {
        assert ValidPos(r, q);
      }
    }
  }

  /** Kept after some turns, then after one more, is kept after all of them. */
  lemma KeptChain(charged: seq<CombatTeam>, mid: seq<CombatTeam>, r: seq<CombatTeam>, done: seq<Pos>, p: Pos)
    requires SameShape(mid, charged) && SameShape(r, mid)
    requires forall q :: ValidPos(charged, q) ==> Kept(charged, mid, done, q)
    requires forall q :: ValidPos(mid, q) ==> Kept(mid, r, [p], q)
    ensures forall q :: ValidPos(charged, q) ==> Kept(charged, r, done + [p], q)
  {
    forall q | ValidPos(charged, q) ensures Kept(charged, r, done + [p], q) {
      assert ValidPos(mid, q) && ValidPos(r, q);
      assert Kept(charged, mid, done, q) && Kept(mid, r, [p], q);
      assert q in done ==> q in done + [p];
      assert q in [p] ==> q in done + [p];
    }
  }

  /** One turn keeps the alive flags right and lowers no hit points, strengths being non-negative. */
  lemma ActOneKeepsAliveFlag(teams: seq<CombatTeam>, p: Pos, draws: seq<nat>, slot: nat)
    requires EveryUnit(teams, true, true)
    ensures SameShape(ActOne(teams, p, draws, slot).teams, teams)
    ensures EveryUnit(ActOne(teams, p, draws, slot).teams, true, true)
    ensures forall q :: ValidPos(teams, q) ==>
      At(ActOne(teams, p, draws, slot).teams, q).currentHp <= At(teams, q).currentHp
  {
    if ValidPos(teams, p) {
      ActOneEffect(teams, p, draws, slot);
      var r := ActOne(teams, p, draws, slot).teams;
      forall q | ValidPos(r, q)
        ensures AliveFlagHolds(At(r, q)) && At(r, q).template.strength >= 0
      {
        assert ValidPos(teams, q);
      }
    }
  }

  /**
   * With non-negative strengths, hit points only go down during the turns,
   * and the alive flag keeps matching the hit points.
   */
  lemma {:induction false} TurnsKeepAliveFlag(charged: seq<CombatTeam>, turn: seq<Pos>, draws: seq<nat>, n: nat)
    requires n <= |turn|
    requires EveryUnit(charged, true, true)
    ensures SameShape(ActUpTo(charged, turn, draws, n).teams, charged)
    ensures EveryUnit(ActUpTo(charged, turn, draws, n).teams, true, true)
    ensures forall q :: ValidPos(charged, q) ==>
      At(ActUpTo(charged, turn, draws, n).teams, q).currentHp <= At(charged, q).currentHp
  {
    if n > 0 {
      TurnsKeepAliveFlag(charged, turn, draws, n - 1);
      ActUpToNext(charged, turn, draws, n);
      PhaseKeepsAliveFlag(charged, ActUpTo(charged, turn, draws, n - 1), ActUpTo(charged, turn, draws, n),
                          turn[n - 1], draws, n - 1);
    }
  }

  lemma ActUpToNext(teams: seq<CombatTeam>, turn: seq<Pos>, draws: seq<nat>, n: nat)
    requires 0 < n <= |turn|
    ensures ActUpTo(teams, turn, draws, n) ==
      match ActUpTo(teams, turn, draws, n - 1)
      case Raised(t) => Raised(t)
      case Acting(t) => ActOne(t, turn[n - 1], draws, n - 1)
  {
  }

  /** One entry of the turn list, as `ActUpTo` takes it, keeps the alive flags and lowers no hit points. */
  lemma PhaseKeepsAliveFlag(charged: seq<CombatTeam>, prev: Phase, next: Phase, p: Pos, draws: seq<nat>, slot: nat)
    requires next == match prev case Raised(t) => Raised(t) case Acting(t) => ActOne(t, p, draws, slot)
    requires SameShape(prev.teams, charged) && EveryUnit(prev.teams, true, true)
    requires forall q :: ValidPos(charged, q) ==> At(prev.teams, q).currentHp <= At(charged, q).currentHp
    ensures SameShape(next.teams, charged) && EveryUnit(next.teams, true, true)
    ensures forall q :: ValidPos(charged, q) ==> At(next.teams, q).currentHp <= At(charged, q).currentHp
  {
    if prev.Acting? {
      ActOneKeepsAliveFlag(prev.teams, p, draws, slot);
      HpChain(charged, prev.teams, next.teams);
    }
  }

  /** Hit points that went down twice went down. */
  lemma HpChain(charged: seq<CombatTeam>, mid: seq<CombatTeam>, r: seq<CombatTeam>)
    requires SameShape(mid, charged) && SameShape(r, mid)
    requires forall q :: ValidPos(charged, q) ==> At(mid, q).currentHp <= At(charged, q).currentHp
    requires forall q :: ValidPos(mid, q) ==> At(r, q).currentHp <= At(mid, q).currentHp
    ensures SameShape(r, charged)
    ensures forall q :: ValidPos(charged, q) ==> At(r, q).currentHp <= At(charged, q).currentHp
  {
    forall q | ValidPos(charged, q) ensures At(r, q).currentHp <= At(charged, q).currentHp {
      assert ValidPos(mid, q);
    }
  }

  // ---------------------------------------------------------------------------
  // The elimination sweep

  lemma {:induction false} AliveUnitsIn(us: seq<CombatEntity>)
    ensures forall u :: u in AliveUnits(us) <==> u in us && u.currentHp > 0
    decreases |us|
  {
    if us != [] {
      var init := us[..|us| - 1];
      AliveUnitsIn(init);
      assert us == init + [us[|us| - 1]];
    }
  }

  lemma {:induction false} AliveUnitsAll(us: seq<CombatEntity>)
    ensures (forall k :: 0 <= k < |us| ==> us[k].currentHp > 0) ==> AliveUnits(us) == us
    decreases |us|
  {
    if us != [] && forall k :: 0 <= k < |us| ==> us[k].currentHp > 0 {
      var init := us[..|us| - 1];
      assert forall k :: 0 <= k < |init| ==> init[k].currentHp > 0 by {
        forall k | 0 <= k < |init| ensures init[k].currentHp > 0 {
          assert init[k] == us[k];
        }
      }
      AliveUnitsAll(init);
      assert us == init + [us[|us| - 1]];
    }
  }

  /** The live part of a team: exactly its units with positive hit points; all of it when all are. */
  lemma AliveUnitsFacts(us: seq<CombatEntity>)
    ensures forall u :: u in AliveUnits(us) <==> u in us && u.currentHp > 0
    ensures (forall k :: 0 <= k < |us| ==> us[k].currentHp > 0) ==> AliveUnits(us) == us
  {
    AliveUnitsIn(us);
    AliveUnitsAll(us);
  }

  lemma {:induction false} MembersOfIn(us: seq<CombatEntity>, j: nat)
    ensures forall u :: u in MembersOf(us, j) <==> u in us && u.team == TeamAt(j)
    decreases |us|
  {
    if us != [] {
      var init := us[..|us| - 1];
      MembersOfIn(init, j);
      assert us == init + [us[|us| - 1]];
    }
  }

  lemma {:induction false} MembersOfAll(us: seq<CombatEntity>, j: nat)
    ensures (forall k :: 0 <= k < |us| ==> us[k].team == TeamAt(j)) ==> MembersOf(us, j) == us
    decreases |us|
  {
    if us != [] && forall k :: 0 <= k < |us| ==> us[k].team == TeamAt(j) {
      var init := us[..|us| - 1];
      assert forall k :: 0 <= k < |init| ==> init[k].team == TeamAt(j) by {
        forall k | 0 <= k < |init| ensures init[k].team == TeamAt(j) {
          assert init[k] == us[k];
        }
      }
      MembersOfAll(init, j);
      assert us == init + [us[|us| - 1]];
    }
  }

  lemma {:induction false} MembersOfNone(us: seq<CombatEntity>, j: nat)
    ensures (forall k :: 0 <= k < |us| ==> us[k].team != TeamAt(j)) ==> MembersOf(us, j) == []
    decreases |us|
  {
    if us != [] && forall k :: 0 <= k < |us| ==> us[k].team != TeamAt(j) {
      var init := us[..|us| - 1];
      assert forall k :: 0 <= k < |init| ==> init[k].team != TeamAt(j) by {
        forall k | 0 <= k < |init| ensures init[k].team != TeamAt(j) {
          assert init[k] == us[k];
        }
      }
      MembersOfNone(init, j);
    }
  }

  /**
   * Team `j`'s share of the survivors: exactly the units naming team `j`;
   * all of them when all do, none when none does.
   */
  lemma MembersOfFacts(us: seq<CombatEntity>, j: nat)
    ensures forall u :: u in MembersOf(us, j) <==> u in us && u.team == TeamAt(j)
    ensures (forall k :: 0 <= k < |us| ==> us[k].team == TeamAt(j)) ==> MembersOf(us, j) == us
    ensures (forall k :: 0 <= k < |us| ==> us[k].team != TeamAt(j)) ==> MembersOf(us, j) == []
  {
    MembersOfIn(us, j);
    MembersOfAll(us, j);
    MembersOfNone(us, j);
  }

  lemma {:induction false} MembersOfConcat(a: seq<CombatEntity>, b: seq<CombatEntity>, j: nat)
    ensures MembersOf(a + b, j) == MembersOf(a, j) + MembersOf(b, j)
    decreases |b|
  {
    if b == [] {
      assert a + b == a;
    } else {
      var init := b[..|b| - 1];
      MembersOfConcat(a, init, j);
      assert (a + b)[..|a + b| - 1] == a + init;
    }
  }

  /**
   * The survivors of the first `n` teams are exactly their units with
   * positive hit points: each survivor is one, and each one survives.
   */
  lemma {:induction false} SurvivorsFacts(teams: seq<CombatTeam>, n: nat)
    requires n <= |teams|
    ensures forall u :: u in SurvivorsUpTo(teams, n) ==>
      u.currentHp > 0 && exists i :: 0 <= i < n && u in teams[i].unitList
    ensures forall i, u :: 0 <= i < n && u in teams[i].unitList && u.currentHp > 0 ==>
      u in SurvivorsUpTo(teams, n)
  {
    if n > 0 {
      SurvivorsFacts(teams, n - 1);
      SurvivorsComplete(teams, n);
      var before := SurvivorsUpTo(teams, n - 1);
      var alive := AliveUnits(teams[n - 1].unitList);
      assert SurvivorsUpTo(teams, n) == before + alive;
      forall u: CombatEntity | u in before + alive
        ensures u.currentHp > 0 && exists i :: 0 <= i < n && u in teams[i].unitList
      {
        if u !in before {
          assert u in alive;
          AliveUnitsFacts(teams[n - 1].unitList);
          assert u in teams[n - 1].unitList;
        }
      }
    }
  }

  /** The induction step of the second half of `SurvivorsFacts`. */
  lemma SurvivorsComplete(teams: seq<CombatTeam>, n: nat)
    requires 0 < n <= |teams|
    requires forall i, u :: 0 <= i < n - 1 && u in teams[i].unitList && u.currentHp > 0 ==>
      u in SurvivorsUpTo(teams, n - 1)
    ensures forall i, u :: 0 <= i < n && u in teams[i].unitList && u.currentHp > 0 ==>
      u in SurvivorsUpTo(teams, n)
  {
    var before := SurvivorsUpTo(teams, n - 1);
    var alive := AliveUnits(teams[n - 1].unitList);
    assert SurvivorsUpTo(teams, n) == before + alive;
    AliveUnitsFacts(teams[n - 1].unitList);
  }

  /** Every unit of team `i` names team `i`, as the intended back-reference would. */
  ghost predicate WellTeamed(teams: seq<CombatTeam>) {
    forall i, u :: 0 <= i < |teams| && u in teams[i].unitList ==> u.team == TeamAt(i)
  }

  ghost predicate AllPositive(teams: seq<CombatTeam>) {
    forall i, u :: 0 <= i < |teams| && u in teams[i].unitList ==> u.currentHp > 0
  }

  /**
   * After the sweep every team holds only units with positive hit points
   * that name it as their team, taken from the units before the sweep.
   */
  lemma SweepFacts(teams: seq<CombatTeam>)
    ensures |Sweep(teams)| == |teams|
    ensures WellTeamed(Sweep(teams)) && AllPositive(Sweep(teams))
    ensures forall j, u :: 0 <= j < |teams| && u in Sweep(teams)[j].unitList ==>
      exists i :: 0 <= i < |teams| && u in teams[i].unitList
  {
    SurvivorsFacts(teams, |teams|);
    forall j | 0 <= j < |teams| {
      MembersOfFacts(Survivors(teams), j);
    }
  }

  /** When every unit names its own team, the sweep keeps each team's live units in their order. */
  lemma {:induction false} SweepKeepsOwnSurvivors(teams: seq<CombatTeam>)
    requires WellTeamed(teams)
    ensures forall j :: 0 <= j < |teams| ==> Sweep(teams)[j].unitList == AliveUnits(teams[j].unitList)
  {
    forall j | 0 <= j < |teams| ensures Sweep(teams)[j].unitList == AliveUnits(teams[j].unitList) {
      SurvivorsMembers(teams, j, |teams|);
    }
  }

  lemma SurvivorsMembers(teams: seq<CombatTeam>, j: nat, n: nat)
    requires WellTeamed(teams) && j < |teams| && n <= |teams|
    ensures MembersOf(SurvivorsUpTo(teams, n), j) == if j < n then AliveUnits(teams[j].unitList) else []
  {
    forall i | 0 <= i < |teams| ensures AliveNameTeam(teams, i, j) {
      MembersOfAlive(teams, i, j);
    }
    SurvivorsMembersUpTo(teams, j, n);
  }

  /** Team `j` takes all of team `i`'s live units when `i == j` and none of them otherwise. */
  ghost predicate AliveNameTeam(teams: seq<CombatTeam>, i: nat, j: nat)
    requires i < |teams|
  {
    MembersOf(AliveUnits(teams[i].unitList), j) == if j == i then AliveUnits(teams[i].unitList) else []
  }

  lemma {:induction false} SurvivorsMembersUpTo(teams: seq<CombatTeam>, j: nat, n: nat)
    requires j < |teams| && n <= |teams|
    requires forall i :: 0 <= i < |teams| ==> AliveNameTeam(teams, i, j)
    ensures MembersOf(SurvivorsUpTo(teams, n), j) == if j < n then AliveUnits(teams[j].unitList) else []
  {
    if n > 0 {
      SurvivorsMembersUpTo(teams, j, n - 1);
      SurvivorsMembersStep(teams, j, n);
    }
  }

  lemma SurvivorsMembersStep(teams: seq<CombatTeam>, j: nat, n: nat)
    requires j < |teams| && 0 < n <= |teams|
    requires AliveNameTeam(teams, n - 1, j)
    requires MembersOf(SurvivorsUpTo(teams, n - 1), j) == if j < n - 1 then AliveUnits(teams[j].unitList) else []
    ensures MembersOf(SurvivorsUpTo(teams, n), j) == if j < n then AliveUnits(teams[j].unitList) else []
  {
    var before := SurvivorsUpTo(teams, n - 1);
    var alive := AliveUnits(teams[n - 1].unitList);
    assert MembersOf(SurvivorsUpTo(teams, n), j) == MembersOf(before, j) + MembersOf(alive, j) by {
      assert SurvivorsUpTo(teams, n) == before + alive;
      MembersOfConcat(before, alive, j);
    }
    JoinMembers(MembersOf(before, j), MembersOf(alive, j), AliveUnits(teams[j].unitList), j, n);
  }

  /** The step of `SurvivorsMembersUpTo`: team `j`'s survivors are found in exactly one team's part. */
  lemma JoinMembers(mb: seq<CombatEntity>, ma: seq<CombatEntity>, own: seq<CombatEntity>, j: nat, n: nat)
    requires n > 0
    requires mb == if j < n - 1 then own else []
    requires ma == if j == n - 1 then own else []
    ensures mb + ma == if j < n then own else []
  {
    if j == n - 1 {
      assert mb + ma == [] + own;
    } else {
      assert mb + ma == mb + [];
    }
  }

  /** The live units of team `i` all name team `i`: team `j` keeps all of them if `j == i`, none otherwise. */
  lemma MembersOfAlive(teams: seq<CombatTeam>, i: nat, j: nat)
    requires WellTeamed(teams) && i < |teams|
    ensures MembersOf(AliveUnits(teams[i].unitList), j) == if j == i then AliveUnits(teams[i].unitList) else []
  {
    var alive := AliveUnits(teams[i].unitList);
    assert forall k :: 0 <= k < |alive| ==> alive[k].team == TeamAt(i) by {
      AliveUnitsFacts(teams[i].unitList);
      forall k | 0 <= k < |alive| ensures alive[k].team == TeamAt(i) {
        assert alive[k] in alive;
      }
    }
    MembersOfFacts(alive, j);
  }

  /** Sweeping an unchanged population a second time changes nothing. */
  lemma SweepIdempotent(teams: seq<CombatTeam>)
    ensures Sweep(Sweep(teams)) == Sweep(teams)
  {
    var once := Sweep(teams);
    SweepFacts(teams);
    SweepKeepsOwnSurvivors(once);
    forall j | 0 <= j < |once| ensures Sweep(once)[j] == once[j] {
      var us := once[j].unitList;
      assert forall k :: 0 <= k < |us| ==> us[k].currentHp > 0 by {
        forall k | 0 <= k < |us| ensures us[k].currentHp > 0 {
          assert us[k] in us;
        }
      }
      AliveUnitsFacts(us);
    }
  }

  /**
   * As written, a new entity names a placeholder team that is none of the
   * arena's teams; if every unit does, the sweep empties every team.
   */
  lemma SweepWithPlaceholderEmptiesTeams(teams: seq<CombatTeam>)
    requires forall i, u :: 0 <= i < |teams| && u in teams[i].unitList ==> u.team == Placeholder
    ensures forall j :: 0 <= j < |teams| ==> Sweep(teams)[j].unitList == []
  {
    var survivors := Survivors(teams);
    SurvivorsFacts(teams, |teams|);
    forall k | 0 <= k < |survivors| ensures survivors[k].team == Placeholder {
      assert survivors[k] in survivors;
    }
    forall j | 0 <= j < |teams| ensures Sweep(teams)[j].unitList == [] {
      MembersOfFacts(survivors, j);
    }
  }

  // ---------------------------------------------------------------------------
  // The whole tick

  /** `fight_battle` reports the battle over exactly when there is one team, and then changes nothing. */
  lemma FightOverIffOneTeam(teams: seq<CombatTeam>, draws: seq<nat>)
    ensures Fight(teams, draws).result == Finished(true) <==> |teams| == 1
    ensures |teams| == 1 ==> Fight(teams, draws).teams == teams
  {
  }

  /**
   * The sweep never removes a team from the arena, so the number of teams
   * never changes, and a battle started with two or more teams is never
   * reported over.
   */
  lemma FightKeepsTeamCount(teams: seq<CombatTeam>, draws: seq<nat>)
    ensures |Fight(teams, draws).teams| == |teams|
    ensures |teams| != 1 ==> Fight(teams, draws).result != Finished(true)
  {
    if |teams| != 1 {
      var charged := ChargeAll(teams);
      var turn := TurnList(charged);
      ActUpToShape(charged, turn, draws, |turn|);
    }
  }

  /**
   * With non-negative strengths, a tick keeps the alive flag matching the
   * hit points, and after a completed tick every remaining unit is alive
   * and sits in the team it names.
   */
  lemma FightKeepsAliveFlag(teams: seq<CombatTeam>, draws: seq<nat>)
    requires EveryUnit(teams, true, true)
    ensures EveryUnit(Fight(teams, draws).teams, true, true)
    ensures Fight(teams, draws).result == Finished(false) ==>
      WellTeamed(Fight(teams, draws).teams) && AllPositive(Fight(teams, draws).teams)
  {
    if |teams| != 1 {
      var charged := ChargeAll(teams);
      ChargeAllAt(teams);
      assert EveryUnit(charged, true, true);
      var turn := TurnList(charged);
      TurnsKeepAliveFlag(charged, turn, draws, |turn|);
      var acted := ActUpTo(charged, turn, draws, |turn|);
      if acted.Acting? {
        var swept := Sweep(acted.teams);
        SweepFacts(acted.teams);
        forall p | ValidPos(swept, p)
          ensures AliveFlagHolds(At(swept, p)) && At(swept, p).template.strength >= 0
        {
          var u := At(swept, p);
          assert u in swept[p.team].unitList;
          var i :| 0 <= i < |acted.teams| && u in acted.teams[i].unitList;
          var k :| 0 <= k < |acted.teams[i].unitList| && acted.teams[i].unitList[k] == u;
          assert At(acted.teams, Pos(i, k)) == u;
        }
      }
    }
  }

  /** Where `Insert` puts `x` when only the first `j` elements of `s` are passed over. */
  ghost function Slot(s: seq<Pos>, x: Pos, teams: seq<CombatTeam>, j: nat): (k: nat)
    requires j <= |s|
    ensures k <= j
  {
    if j > 0 && MeterAt(teams, s[j - 1]) < MeterAt(teams, x) then Slot(s, x, teams, j - 1) else j
  }

  /** One team of the charging pass: the teams before `i` are charged, team `i` is next. */
  lemma ChargeStep(start: seq<CombatTeam>, cur: seq<CombatTeam>, i: nat)
    requires i < |start|
    requires cur == ChargeAll(start)[..i] + start[i..]
    ensures cur[i] == start[i]
    ensures cur[i := CombatTeam(ChargeUnits(start[i].unitList))] == ChargeAll(start)[..i + 1] + start[i + 1..]
    ensures ReadyUpTo(ChargeAll(start), i + 1) ==
      ReadyUpTo(ChargeAll(start), i) + ReadyInTeam(ChargeUnits(start[i].unitList), i)
  {
    var charged := ChargeAll(start);
    assert start[i..] == [start[i]] + start[i + 1..];
    assert charged[..i + 1] == charged[..i] + [charged[i]];
  }

  lemma {:induction false} SlotOfPrefix(s: seq<Pos>, n: nat, x: Pos, teams: seq<CombatTeam>, j: nat)
    requires j <= n <= |s|
    ensures Slot(s[..n], x, teams, j) == Slot(s, x, teams, j)
  {
    if j > 0 {
      assert s[..n][j - 1] == s[j - 1];
      SlotOfPrefix(s, n, x, teams, j - 1);
    }
  }

  /** `Insert` places `x` at its slot and keeps everything else in order. */
  lemma {:induction false} InsertAtSlot(s: seq<Pos>, x: Pos, teams: seq<CombatTeam>)
    ensures var k := Slot(s, x, teams, |s|);
      Insert(s, x, teams) == s[..k] + [x] + s[k..]
    decreases |s|
  {
    var n := |s|;
    if n > 0 && MeterAt(teams, s[n - 1]) < MeterAt(teams, x) {
      InsertAtSlot(s[..n - 1], x, teams);
      SlotOfPrefix(s, n - 1, x, teams, n - 1);
      ShiftPast(s, x, teams, Slot(s[..n - 1], x, teams, n - 1));
    } else {
      assert s[..n] == s;
    }
  }

  /** Inserting past the last element: the last element moves behind the insertion point. */
  lemma ShiftPast(s: seq<Pos>, x: Pos, teams: seq<CombatTeam>, k: nat)
    requires 0 < |s| && k < |s|
    requires MeterAt(teams, s[|s| - 1]) < MeterAt(teams, x)
    requires Insert(s[..|s| - 1], x, teams) == s[..|s| - 1][..k] + [x] + s[..|s| - 1][k..]
    ensures Insert(s, x, teams) == s[..k] + [x] + s[k..]
  {
    var init := s[..|s| - 1];
    assert init[..k] == s[..k];
    assert init[k..] + [s[|s| - 1]] == s[k..];
  }

  /** Swapping `x` with its left neighbour moves it one place down the prefix. */
  lemma SwapDown(cur: seq<Pos>, sorted: seq<Pos>, rest: seq<Pos>, x: Pos, j: nat)
    requires 0 < j <= |sorted|
    requires cur == sorted[..j] + [x] + sorted[j..] + rest
    ensures cur[j - 1] == sorted[j - 1] && cur[j] == x
    ensures cur[j - 1 := x][j := sorted[j - 1]] == sorted[..j - 1] + [x] + sorted[j - 1..] + rest
  {
    assert sorted[j - 1..] == [sorted[j - 1]] + sorted[j..];
    assert sorted[..j] == sorted[..j - 1] + [sorted[j - 1]];
  }
}
