/**
 * Helpers shared by the movement-stage search bots: pruning of similar moves and
 * the collection of the states one level down.
 */
module MovementBotUtil {
  import opened Wrappers
  import opened Game

  /** Outcomes whose chance does not exceed this are dropped as bad branches. */
  const BAD_BRANCH_PROBABILITY: real := 0.1

  /** A state one level down, its probability, and the move that leads to it. */
  datatype State = State(gameState: Node, probability: real, lastMove: MakeMoveEvent)

  /** Both moves are made by units of type `t` and aim at the same cell. */
  predicate Similar(a: Move, b: Move, t: UnitType)
  {
    UnitTypeOf(a) == t && UnitTypeOf(b) == t && TargetOf(a) == TargetOf(b)
  }

  /** Some move of `earlier` is similar to `m`. */
  predicate RepeatsEarlier(earlier: seq<Move>, m: Move, t: UnitType)
  {
    exists e :: e in earlier && Similar(e, m, t)
  }

  /** Keeps every move except those that repeat an earlier move of type `t` onto the same target. */
  function WithoutSimilar(moves: seq<Move>, t: UnitType): seq<Move>
  {
    if moves == [] then []
    else
      var prefix := moves[..|moves| - 1];
      var m := moves[|moves| - 1];
      WithoutSimilar(prefix, t) + (if RepeatsEarlier(prefix, m, t) then [] else [m])
  }

  /** The moves of `s` made by units of type `t`, in order. */
  function OfType(s: seq<Move>, t: UnitType): (r: seq<Move>)
    ensures forall x :: x in r ==> x in s && UnitTypeOf(x) == t
  {
    if s == [] then []
    else OfType(s[..|s| - 1], t) + (if UnitTypeOf(s[|s| - 1]) == t then [s[|s| - 1]] else [])
  }

  /** No two moves of type `t` in `s` aim at the same cell. */
  predicate DistinctTargets(s: seq<Move>, t: UnitType)
  {
    PairwiseDistinctTargets(OfType(s, t))
  }

  predicate PairwiseDistinctTargets(f: seq<Move>)
  {
    forall i, j :: 0 <= i < j < |f| ==> TargetOf(f[i]) != TargetOf(f[j])
  }

  /** `a` is `b` with some elements deleted, the rest in their original order. */
  predicate IsSubsequence(a: seq<Move>, b: seq<Move>)
    decreases |b|
  {
    if b == [] then a == []
    else
      (a != [] && a[|a| - 1] == b[|b| - 1] && IsSubsequence(a[..|a| - 1], b[..|b| - 1]))
      || IsSubsequence(a, b[..|b| - 1])
  }

  method RemoveSimilarMovesOfUnitType(moves: seq<Move>, attackerUnitType: UnitType) returns (kept: seq<Move>)
    ensures kept == WithoutSimilar(moves, attackerUnitType)
  {
    var targetUnitPositions: set<Position> := {};
    kept := [];
    var i := 0;
    while i < |moves|
      invariant 0 <= i <= |moves|
      invariant kept == WithoutSimilar(moves[..i], attackerUnitType)
      invariant forall p :: p in targetUnitPositions <==>
        exists e :: e in moves[..i] && UnitTypeOf(e) == attackerUnitType && TargetOf(e) == p
    {
      var moveEvent := moves[i];
      assert moves[..i + 1][..i] == moves[..i];
      if attackerUnitType == UnitTypeOf(moveEvent) {
        var added := TargetOf(moveEvent) !in targetUnitPositions;
        targetUnitPositions := targetUnitPositions + {TargetOf(moveEvent)};
        if added {
          kept := kept + [moveEvent];
        } else {
          var e :| e in moves[..i] && UnitTypeOf(e) == attackerUnitType && TargetOf(e) == TargetOf(moveEvent);
          assert Similar(e, moveEvent, attackerUnitType);
        }
      } else {
        kept := kept + [moveEvent];
      }
      i := i + 1;
    }
    assert moves[..i] == moves;
  }

  /** The three filters of `removeUnnecessaryMoves`: archers, then knights, then healers. */
  function WithoutUnnecessary(moves: seq<Move>): seq<Move>
  {
    WithoutSimilar(WithoutSimilar(WithoutSimilar(moves, Archer), Knight), Healer)
  }

  method RemoveUnnecessaryMoves(possibleMoves: seq<Move>) returns (kept: seq<Move>)
    ensures kept == WithoutUnnecessary(possibleMoves)
  {
    kept := RemoveSimilarMovesOfUnitType(possibleMoves, Archer);
    kept := RemoveSimilarMovesOfUnitType(kept, Knight);
    kept := RemoveSimilarMovesOfUnitType(kept, Healer);
  }

  lemma {:induction false} WithoutSimilarIsSubsequence(moves: seq<Move>, t: UnitType)
    ensures IsSubsequence(WithoutSimilar(moves, t), moves)
    decreases |moves|
  {
    if moves != [] {
      var prefix := moves[..|moves| - 1];
      var m := moves[|moves| - 1];
      var prev := WithoutSimilar(prefix, t);
      WithoutSimilarIsSubsequence(prefix, t);
      if RepeatsEarlier(prefix, m, t) {
        assert WithoutSimilar(moves, t) == prev;
      } else {
        var r := prev + [m];
        assert WithoutSimilar(moves, t) == r;
        assert r[..|r| - 1] == prev && r[|r| - 1] == m;
      }
    }
  }

  lemma {:induction false} SubsequenceMembers(a: seq<Move>, b: seq<Move>)
    requires IsSubsequence(a, b)
    ensures forall x :: x in a ==> x in b
    decreases |b|
  {
    if b != [] {
      var b' := b[..|b| - 1];
      if a != [] && a[|a| - 1] == b[|b| - 1] && IsSubsequence(a[..|a| - 1], b') {
        SubsequenceMembers(a[..|a| - 1], b');
        assert a == a[..|a| - 1] + [a[|a| - 1]];
      } else {
        SubsequenceMembers(a, b');
      }
    }
  }

  lemma OfTypeAppend(s: seq<Move>, u: seq<Move>, t: UnitType)
    ensures OfType(s + u, t) == OfType(s, t) + OfType(u, t)
    decreases |u|
  {
    if u == [] {
      assert s + u == s;
    } else {
      assert (s + u)[..|s + u| - 1] == s + u[..|u| - 1];
      OfTypeAppend(s, u[..|u| - 1], t);
    }
  }

  /** Pruning moves of type `t` leaves the moves of every other type exactly as they were. */
  lemma {:induction false} WithoutSimilarKeepsOtherTypes(moves: seq<Move>, t: UnitType, u: UnitType)
    requires u != t
    ensures OfType(WithoutSimilar(moves, t), u) == OfType(moves, u)
    decreases |moves|
  {
    if moves != [] {
      var prefix := moves[..|moves| - 1];
      var m := moves[|moves| - 1];
      var tail := if RepeatsEarlier(prefix, m, t) then [] else [m];
      WithoutSimilarKeepsOtherTypes(prefix, t, u);
      OfTypeAppend(WithoutSimilar(prefix, t), tail, u);
      assert OfType([m], u) == (if UnitTypeOf(m) == u then [m] else []) by {
        assert [m][..0] == [];
      }
      assert OfType([], u) == [];
    }
  }

  /** Appending `m` keeps the targets distinct exactly when no earlier move of type `t` aims where `m` does. */
  lemma DistinctTargetsAppend(prev: seq<Move>, m: Move, t: UnitType)
    ensures DistinctTargets(prev + [m], t) <==>
      DistinctTargets(prev, t) &&
      (UnitTypeOf(m) == t ==> forall x :: x in prev && UnitTypeOf(x) == t ==> TargetOf(x) != TargetOf(m))
  {
    var f := OfType(prev, t);
    OfTypeAppend(prev, [m], t);
    assert OfType([m], t) == (if UnitTypeOf(m) == t then [m] else []) by { assert [m][..0] == []; }
    if UnitTypeOf(m) == t {
      assert OfType(prev + [m], t) == f + [m];
      PairwiseDistinctAppend(f, m);
      forall x | x in prev && UnitTypeOf(x) == t
        ensures x in f
      {
        OfTypeMember(prev, x, t);
      }
    } else {
      assert OfType(prev + [m], t) == f;
    }
  }

  lemma PairwiseDistinctAppend(f: seq<Move>, m: Move)
    ensures PairwiseDistinctTargets(f + [m]) <==>
      PairwiseDistinctTargets(f) && forall x :: x in f ==> TargetOf(x) != TargetOf(m)
  {
    var g := f + [m];
    assert forall i :: 0 <= i < |f| ==> g[i] == f[i];
    assert g[|f|] == m;
    if PairwiseDistinctTargets(g) {
      forall x | x in f
        ensures TargetOf(x) != TargetOf(m)
      {
        var i :| 0 <= i < |f| && f[i] == x;
        assert g[i] == x;
      }
    }
  }

  /** After pruning, no two moves of type `t` aim at the same cell. */
  lemma {:induction false} WithoutSimilarDistinct(moves: seq<Move>, t: UnitType)
    ensures DistinctTargets(WithoutSimilar(moves, t), t)
    decreases |moves|
  {
    if moves != [] {
      var prefix := moves[..|moves| - 1];
      var m := moves[|moves| - 1];
      var prev := WithoutSimilar(prefix, t);
      WithoutSimilarDistinct(prefix, t);
      if !RepeatsEarlier(prefix, m, t) {
        assert WithoutSimilar(moves, t) == prev + [m];
        WithoutSimilarIsSubsequence(prefix, t);
        SubsequenceMembers(prev, prefix);
        if UnitTypeOf(m) == t {
          forall x | x in prev && UnitTypeOf(x) == t
            ensures TargetOf(x) != TargetOf(m)
          {
            assert x in prefix;
            assert !Similar(x, m, t);
          }
        }
        DistinctTargetsAppend(prev, m, t);
      } else {
        assert WithoutSimilar(moves, t) == prev;
      }
    }
  }

  /** Every cell some move of type `t` aimed at is still the target of a kept move of that type. */
  lemma {:induction false} WithoutSimilarCoversTargets(moves: seq<Move>, t: UnitType)
    ensures forall m :: m in moves && UnitTypeOf(m) == t ==>
      exists k :: k in WithoutSimilar(moves, t) && Similar(k, m, t)
    decreases |moves|
  {
    if moves != [] {
      var prefix := moves[..|moves| - 1];
      var last := moves[|moves| - 1];
      WithoutSimilarCoversTargets(prefix, t);
      var r := WithoutSimilar(moves, t);
      assert r == WithoutSimilar(prefix, t) + (if RepeatsEarlier(prefix, last, t) then [] else [last]);
      forall m | m in moves && UnitTypeOf(m) == t
        ensures exists k :: k in r && Similar(k, m, t)
      {
        if m in prefix {
          var k :| k in WithoutSimilar(prefix, t) && Similar(k, m, t);
          assert k in r;
        } else {
          assert m == last by { assert moves == prefix + [last]; }
          if RepeatsEarlier(prefix, last, t) {
            var e :| e in prefix && Similar(e, last, t);
            var k :| k in WithoutSimilar(prefix, t) && Similar(k, e, t);
            assert k in r && Similar(k, m, t);
          } else {
            assert last in r && Similar(last, m, t);
          }
        }
      }
    }
  }

  /** A list that has no similar moves of type `t` is left untouched. */
  lemma {:induction false} WithoutSimilarOfDistinct(moves: seq<Move>, t: UnitType)
    requires DistinctTargets(moves, t)
    ensures WithoutSimilar(moves, t) == moves
    decreases |moves|
  {
    if moves != [] {
      var prefix := moves[..|moves| - 1];
      var m := moves[|moves| - 1];
      assert moves == prefix + [m];
      DistinctTargetsAppend(prefix, m, t);
      WithoutSimilarOfDistinct(prefix, t);
      assert !RepeatsEarlier(prefix, m, t) by {
        if UnitTypeOf(m) == t {
          forall e | e in prefix
            ensures !Similar(e, m, t)
          {
          }
        }
      }
    }
  }

  lemma {:induction false} OfTypeMember(s: seq<Move>, x: Move, t: UnitType)
    requires x in s && UnitTypeOf(x) == t
    ensures x in OfType(s, t)
    decreases |s|
  {
    if x != s[|s| - 1] {
      assert s == s[..|s| - 1] + [s[|s| - 1]];
      OfTypeMember(s[..|s| - 1], x, t);
    }
  }

  /** Pruning twice is pruning once. */
  lemma WithoutSimilarIdempotent(moves: seq<Move>, t: UnitType)
    ensures WithoutSimilar(WithoutSimilar(moves, t), t) == WithoutSimilar(moves, t)
  {
    WithoutSimilarDistinct(moves, t);
    WithoutSimilarOfDistinct(WithoutSimilar(moves, t), t);
  }

  lemma DistinctTargetsDependsOnType(s: seq<Move>, u: seq<Move>, t: UnitType)
    requires OfType(s, t) == OfType(u, t)
    ensures DistinctTargets(s, t) == DistinctTargets(u, t)
  {
  }

  /** `removeUnnecessaryMoves` is idempotent: pruning an already pruned list changes nothing. */
  lemma WithoutUnnecessaryIdempotent(moves: seq<Move>)
    ensures WithoutUnnecessary(WithoutUnnecessary(moves)) == WithoutUnnecessary(moves)
  {
    var r := WithoutUnnecessary(moves);
    WithoutUnnecessaryProperties(moves);
    WithoutSimilarOfDistinct(r, Archer);
    WithoutSimilarOfDistinct(r, Knight);
    WithoutSimilarOfDistinct(r, Healer);
  }

  /**
   * After `removeUnnecessaryMoves` no two archer, knight or healer moves share a target,
   * and the mages' moves are exactly those of the input.
   */
  lemma WithoutUnnecessaryProperties(moves: seq<Move>)
    ensures var r := WithoutUnnecessary(moves);
      && DistinctTargets(r, Archer) && DistinctTargets(r, Knight) && DistinctTargets(r, Healer)
      && OfType(r, Mage) == OfType(moves, Mage)
      && IsSubsequence(r, moves)
  {
    var a := WithoutSimilar(moves, Archer);
    var k := WithoutSimilar(a, Knight);
    var h := WithoutSimilar(k, Healer);
    WithoutSimilarDistinct(moves, Archer);
    WithoutSimilarDistinct(a, Knight);
    WithoutSimilarDistinct(k, Healer);
    WithoutSimilarKeepsOtherTypes(a, Knight, Archer);
    WithoutSimilarKeepsOtherTypes(k, Healer, Archer);
    WithoutSimilarKeepsOtherTypes(k, Healer, Knight);
    DistinctTargetsDependsOnType(h, a, Archer);
    DistinctTargetsDependsOnType(h, k, Knight);
    WithoutSimilarKeepsOtherTypes(moves, Archer, Mage);
    WithoutSimilarKeepsOtherTypes(a, Knight, Mage);
    WithoutSimilarKeepsOtherTypes(k, Healer, Mage);
    WithoutSimilarIsSubsequence(moves, Archer);
    WithoutSimilarIsSubsequence(a, Knight);
    WithoutSimilarIsSubsequence(k, Healer);
    SubsequenceTransitive(h, k, a);
    SubsequenceTransitive(h, a, moves);
  }

  lemma {:induction false} SubsequenceTransitive(a: seq<Move>, b: seq<Move>, c: seq<Move>)
    requires IsSubsequence(a, b) && IsSubsequence(b, c)
    ensures IsSubsequence(a, c)
    decreases |c|
  {
    if c == [] {
    } else if b != [] && b[|b| - 1] == c[|c| - 1] && IsSubsequence(b[..|b| - 1], c[..|c| - 1]) {
      var b' := b[..|b| - 1];
      if a != [] && a[|a| - 1] == b[|b| - 1] && IsSubsequence(a[..|a| - 1], b') {
        SubsequenceTransitive(a[..|a| - 1], b', c[..|c| - 1]);
      } else {
        SubsequenceTransitive(a, b', c[..|c| - 1]);
      }
    } else {
      SubsequenceTransitive(a, b, c[..|c| - 1]);
    }
  }

  /** Two knights attacking the same cell: one move survives. */
  lemma RemoveSimilarMovesExample(k1: Unit, k2: Unit, o1: Outcomes, o2: Outcomes)
    requires k1.unitType == Knight && k2.unitType == Knight
    ensures |WithoutUnnecessary([
      Move(MakeMoveEvent(Position(0, 0), Position(1, 1), k1), o1),
      Move(MakeMoveEvent(Position(0, 1), Position(1, 1), k2), o2)])| == 1
  {
    var a := Move(MakeMoveEvent(Position(0, 0), Position(1, 1), k1), o1);
    var b := Move(MakeMoveEvent(Position(0, 1), Position(1, 1), k2), o2);
    PairUnfold(a, b, Archer);
    PairUnfold(a, b, Knight);
    WithoutSimilarUnfold([], a, Healer);
    assert [] + [a] == [a];
  }

  /** Two knights attacking different cells: both moves survive. */
  lemma RemoveNotSimilarMovesExample(k1: Unit, k2: Unit, o1: Outcomes, o2: Outcomes)
    requires k1.unitType == Knight && k2.unitType == Knight
    ensures |WithoutUnnecessary([
      Move(MakeMoveEvent(Position(0, 0), Position(2, 1), k1), o1),
      Move(MakeMoveEvent(Position(0, 1), Position(1, 1), k2), o2)])| == 2
  {
    var a := Move(MakeMoveEvent(Position(0, 0), Position(2, 1), k1), o1);
    var b := Move(MakeMoveEvent(Position(0, 1), Position(1, 1), k2), o2);
    PairUnfold(a, b, Archer);
    PairUnfold(a, b, Knight);
    PairUnfold(a, b, Healer);
  }

  /** Pruning a two-move list drops the second move exactly when it repeats the first. */
  lemma PairUnfold(a: Move, b: Move, t: UnitType)
    ensures WithoutSimilar([a, b], t) == if Similar(a, b, t) then [a] else [a, b]
  {
    WithoutSimilarUnfold([], a, t);
    WithoutSimilarUnfold([a], b, t);
    assert [] + [a] == [a] && [a] + [b] == [a, b];
    assert RepeatsEarlier([a], b, t) <==> Similar(a, b, t) by {
      assert a in [a];
    }
  }

  lemma WithoutSimilarUnfold(prefix: seq<Move>, m: Move, t: UnitType)
    ensures WithoutSimilar(prefix + [m], t) ==
      WithoutSimilar(prefix, t) + (if RepeatsEarlier(prefix, m, t) then [] else [m])
  {
    assert (prefix + [m])[..|prefix|] == prefix;
  }

  /** A single move is never pruned. */
  lemma SingleMoveKept(m: Move)
    ensures WithoutUnnecessary([m]) == [m]
  {
    WithoutSimilarUnfold([], m, Archer);
    WithoutSimilarUnfold([], m, Knight);
    WithoutSimilarUnfold([], m, Healer);
    assert [] + [m] == [m];
  }

  /** A knight pair, an archer pair and a healer pair, each onto (2, 1): one move of each type survives. */
  lemma RemoveUnnecessaryMovesExample(units: seq<Unit>, outcomes: seq<Outcomes>)
    requires |units| == 6 && |outcomes| == 6
    requires units[0].unitType == Knight && units[1].unitType == Knight
    requires units[2].unitType == Archer && units[3].unitType == Archer
    requires units[4].unitType == Healer && units[5].unitType == Healer
    ensures |WithoutUnnecessary(seq(6, i requires 0 <= i < 6 =>
      Move(MakeMoveEvent(Position(0, i % 2), Position(2, 1), units[i]), outcomes[i])))| == 3
  {
    var moves := seq(6, i requires 0 <= i < 6 =>
      Move(MakeMoveEvent(Position(0, i % 2), Position(2, 1), units[i]), outcomes[i]));
    var m0, m1, m2, m3, m4, m5 := moves[0], moves[1], moves[2], moves[3], moves[4], moves[5];
    assert moves == [m0, m1, m2, m3, m4, m5];
    ArcherPassExample(m0, m1, m2, m3, m4, m5);
    KnightPassExample(m0, m1, m2, m4, m5);
    HealerPassExample(m0, m2, m4, m5);
  }

  /** A move no earlier move of type `t` targets the same way is kept. */
  lemma FreshKept(prefix: seq<Move>, m: Move, t: UnitType)
    requires forall e :: e in prefix ==> !Similar(e, m, t)
    ensures WithoutSimilar(prefix + [m], t) == WithoutSimilar(prefix, t) + [m]
  {
    WithoutSimilarUnfold(prefix, m, t);
  }

  /** A move similar to an earlier one is dropped. */
  lemma SimilarDropped(prefix: seq<Move>, e: Move, m: Move, t: UnitType)
    requires e in prefix && Similar(e, m, t)
    ensures WithoutSimilar(prefix + [m], t) == WithoutSimilar(prefix, t)
  {
    WithoutSimilarUnfold(prefix, m, t);
  }

  lemma ArcherPassExample(m0: Move, m1: Move, m2: Move, m3: Move, m4: Move, m5: Move)
    requires UnitTypeOf(m0) == Knight && UnitTypeOf(m1) == Knight && UnitTypeOf(m2) == Archer
    requires UnitTypeOf(m3) == Archer && UnitTypeOf(m4) == Healer && UnitTypeOf(m5) == Healer
    requires TargetOf(m2) == TargetOf(m3)
    ensures WithoutSimilar([m0, m1, m2, m3, m4, m5], Archer) == [m0, m1, m2, m4, m5]
  {
    FreshKept([], m0, Archer);
    assert [] + [m0] == [m0];
    FreshKept([m0], m1, Archer);
    assert [m0] + [m1] == [m0, m1];
    FreshKept([m0, m1], m2, Archer);
    assert [m0, m1] + [m2] == [m0, m1, m2];
    SimilarDropped([m0, m1, m2], m2, m3, Archer);
    assert [m0, m1, m2] + [m3] == [m0, m1, m2, m3];
    FreshKept([m0, m1, m2, m3], m4, Archer);
    assert [m0, m1, m2, m3] + [m4] == [m0, m1, m2, m3, m4];
    FreshKept([m0, m1, m2, m3, m4], m5, Archer);
    assert [m0, m1, m2, m3, m4] + [m5] == [m0, m1, m2, m3, m4, m5];
    assert [m0, m1, m2] + [m4] + [m5] == [m0, m1, m2, m4, m5];
  }

  lemma KnightPassExample(m0: Move, m1: Move, m2: Move, m4: Move, m5: Move)
    requires UnitTypeOf(m0) == Knight && UnitTypeOf(m1) == Knight && UnitTypeOf(m2) == Archer
    requires UnitTypeOf(m4) == Healer && UnitTypeOf(m5) == Healer
    requires TargetOf(m0) == TargetOf(m1)
    ensures WithoutSimilar([m0, m1, m2, m4, m5], Knight) == [m0, m2, m4, m5]
  {
    FreshKept([], m0, Knight);
    assert [] + [m0] == [m0];
    SimilarDropped([m0], m0, m1, Knight);
    assert [m0] + [m1] == [m0, m1];
    FreshKept([m0, m1], m2, Knight);
    assert [m0, m1] + [m2] == [m0, m1, m2];
    FreshKept([m0, m1, m2], m4, Knight);
    assert [m0, m1, m2] + [m4] == [m0, m1, m2, m4];
    FreshKept([m0, m1, m2, m4], m5, Knight);
    assert [m0, m1, m2, m4] + [m5] == [m0, m1, m2, m4, m5];
    assert [m0] + [m2] + [m4] + [m5] == [m0, m2, m4, m5];
  }

  lemma HealerPassExample(m0: Move, m2: Move, m4: Move, m5: Move)
    requires UnitTypeOf(m0) == Knight && UnitTypeOf(m2) == Archer
    requires UnitTypeOf(m4) == Healer && UnitTypeOf(m5) == Healer
    requires TargetOf(m4) == TargetOf(m5)
    ensures WithoutSimilar([m0, m2, m4, m5], Healer) == [m0, m2, m4]
  {
    FreshKept([], m0, Healer);
    assert [] + [m0] == [m0];
    FreshKept([m0], m2, Healer);
    assert [m0] + [m2] == [m0, m2];
    FreshKept([m0, m2], m4, Healer);
    assert [m0, m2] + [m4] == [m0, m2, m4];
    SimilarDropped([m0, m2, m4], m4, m5, Healer);
    assert [m0, m2, m4] + [m5] == [m0, m2, m4, m5];
  }

  /** The outcomes of `event` whose chance exceeds BAD_BRANCH_PROBABILITY, in order, as states. */
  function KeptOptions(options: seq<StateChance>, event: MakeMoveEvent): seq<State>
  {
    if options == [] then []
    else
      var o := options[|options| - 1];
      KeptOptions(options[..|options| - 1], event)
        + (if o.chance > BAD_BRANCH_PROBABILITY then [State(o.state, o.chance, event)] else [])
  }

  /** The states one level down, move by move; `Failure` when `getPossibleState` rejects some move. */
  function PossibleStates(moves: seq<Move>): Result<seq<State>>
  {
    if moves == [] then Success([])
    else
      var m := moves[|moves| - 1];
      match (PossibleStates(moves[..|moves| - 1]), m.outcomes)
      case (Success(s), Applied(options)) => Success(s + KeptOptions(options, m.event))
      case _ => Failure
  }

  method CollectPossibleStates(possibleMoves: seq<Move>) returns (r: Result<seq<State>>)
    ensures r == PossibleStates(possibleMoves)
  {
    var possibleStates: seq<State> := [];
    for i := 0 to |possibleMoves|
      invariant PossibleStates(possibleMoves[..i]) == Success(possibleStates)
    {
      var move := possibleMoves[i];
      assert possibleMoves[..i + 1][..i] == possibleMoves[..i];
      if move.outcomes.Rejected? {
        PossibleStatesFailureSticks(possibleMoves, i + 1);
        return Failure;
      }
      var possibleOptions := move.outcomes.options;
      ghost var before := possibleStates;
      for j := 0 to |possibleOptions|
        invariant possibleStates == before + KeptOptions(possibleOptions[..j], move.event)
      {
        var stateChance := possibleOptions[j];
        assert possibleOptions[..j + 1][..j] == possibleOptions[..j];
        if stateChance.chance > BAD_BRANCH_PROBABILITY {
          possibleStates := possibleStates + [State(stateChance.state, stateChance.chance, move.event)];
        }
      }
      assert possibleOptions[..|possibleOptions|] == possibleOptions;
    }
    assert possibleMoves[..|possibleMoves|] == possibleMoves;
    r := Success(possibleStates);
  }

  lemma {:induction false} PossibleStatesFailureSticks(moves: seq<Move>, n: nat)
    requires 0 < n <= |moves| && PossibleStates(moves[..n]) == Failure
    ensures PossibleStates(moves) == Failure
    decreases |moves| - n
  {
    if n < |moves| {
      assert moves[..n + 1][..n] == moves[..n];
      PossibleStatesFailureSticks(moves, n + 1);
    } else {
      assert moves[..n] == moves;
    }
  }

  /** Collection fails exactly when `getPossibleState` rejects one of the moves. */
  lemma {:induction false} PossibleStatesFailure(moves: seq<Move>)
    ensures PossibleStates(moves).Failure? <==> exists m :: m in moves && m.outcomes.Rejected?
    decreases |moves|
  {
    if moves != [] {
      var prefix := moves[..|moves| - 1];
      PossibleStatesFailure(prefix);
      assert moves == prefix + [moves[|moves| - 1]];
    }
  }

  /** Every kept option has a chance above the threshold and comes from the move it names. */
  lemma {:induction false} KeptOptionsSound(options: seq<StateChance>, event: MakeMoveEvent)
    ensures forall x :: x in KeptOptions(options, event) ==>
      x.probability > BAD_BRANCH_PROBABILITY && x.lastMove == event &&
      StateChance(x.gameState, x.probability) in options
    decreases |options|
  {
    if options != [] {
      var prefix := options[..|options| - 1];
      KeptOptionsSound(prefix, event);
      assert forall o :: o in prefix ==> o in options;
    }
  }

  /** Every option above the threshold is kept. */
  lemma {:induction false} KeptOptionsComplete(options: seq<StateChance>, event: MakeMoveEvent)
    ensures forall o :: o in options && o.chance > BAD_BRANCH_PROBABILITY ==>
      State(o.state, o.chance, event) in KeptOptions(options, event)
    decreases |options|
  {
    if options != [] {
      var prefix := options[..|options| - 1];
      KeptOptionsComplete(prefix, event);
      assert options == prefix + [options[|options| - 1]];
    }
  }

  /**
   * A successful collection holds exactly the outcomes above the threshold of the moves,
   * each tagged with the move that produces it.
   */
  lemma {:induction false} PossibleStatesExact(moves: seq<Move>)
    requires PossibleStates(moves).Success?
    ensures forall x :: x in PossibleStates(moves).value ==>
      x.probability > BAD_BRANCH_PROBABILITY &&
      exists m :: m in moves && m.event == x.lastMove && m.outcomes.Applied? &&
        StateChance(x.gameState, x.probability) in m.outcomes.options
    ensures forall m, o ::
      m in moves && m.outcomes.Applied? && o in m.outcomes.options && o.chance > BAD_BRANCH_PROBABILITY
      ==> State(o.state, o.chance, m.event) in PossibleStates(moves).value
    decreases |moves|
  {
    if moves != [] {
      var prefix := moves[..|moves| - 1];
      var last := moves[|moves| - 1];
      assert moves == prefix + [last];
      PossibleStatesExact(prefix);
      KeptOptionsSound(last.outcomes.options, last.event);
      KeptOptionsComplete(last.outcomes.options, last.event);
    }
  }
}
