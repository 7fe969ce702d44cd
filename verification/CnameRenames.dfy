/** The CNAME slot rename planner of the legacy manager: a worklist loop that breaks rename cycles
    through temporary names. */
module CnameRenames {
  import opened Wrappers

  /** One stored selector; `digest` is the lower-case hex SHA-256 of its directory name. */
  datatype Selector = Selector(digest: string, active: bool)

  datatype Plan = Plan(source: string, target: string, selector: Selector)

  datatype Move = Move(current: string, target: string, selector: Selector)

  datatype Step = Step(from: string, to: string)

  type Names = map<string, Selector>

  // ---------------------------------------------------------------------------------------------
  // Cycles of a set of moves
  // ---------------------------------------------------------------------------------------------

  ghost function Targets(c: set<Move>): set<string> { set m | m in c :: m.target }

  ghost function Currents(c: set<Move>): set<string> { set m | m in c :: m.current }

  /** Every name wanted inside `c` is held inside `c`, and the other way round. */
  ghost predicate Closed(c: set<Move>) { Targets(c) == Currents(c) }

  /** A cycle of the source-to-target graph: a smallest nonempty closed set. */
  ghost predicate IsCycle(c: set<Move>)
  {
    c != {} && Closed(c) && forall d: set<Move> :: d < c && d != {} ==> !Closed(d)
  }

  ghost function Cycles(moves: set<Move>): set<set<Move>> { set c | c <= moves && IsCycle(c) }

  ghost predicate AllActive(c: set<Move>) { forall m :: m in c ==> m.selector.active }

  /** No two moves share a current name or a target. */
  ghost predicate Injective(moves: set<Move>)
  {
    && (forall a, b :: a in moves && b in moves && a.target == b.target ==> a == b)
    && (forall a, b :: a in moves && b in moves && a.current == b.current ==> a == b)
  }

  lemma InjectivePart(c: set<Move>, m: Move)
    requires Injective(c) && m in c
    ensures Injective(c - {m}) && m.target in Targets(c) && m.current in Currents(c)
  {}

  lemma OneLess<T>(s: set<T>, x: T)
    requires x in s
    ensures |s - {x}| == |s| - 1
  {}

  lemma {:induction false} ImageSizes(c: set<Move>)
    requires Injective(c)
    ensures |Targets(c)| == |Currents(c)| == |c|
  {
    if c == {} {
      assert Targets(c) == {} && Currents(c) == {};
    }
    hide Injective, Targets, Currents;
    if c != {} {
      var m :| m in c;
      RemoveMove(c, m);
      InjectivePart(c, m);
      ImageSizes(c - {m});
      OneLess(c, m);
      OneLess(Targets(c), m.target);
      OneLess(Currents(c), m.current);
    }
  }

  lemma SameSize(a: set<string>, b: set<string>)
    requires a <= b && |a| == |b|
    ensures a == b
  {
    assert |b - a| == |b| - |a|;
  }

  /** The pigeonhole step: when every target is held by a waiting move, the moves form a permutation. */
  lemma StuckIsClosed(moves: set<Move>)
    requires Injective(moves)
    requires Targets(moves) <= Currents(moves)
    ensures Closed(moves)
  {
    ImageSizes(moves);
    SameSize(Targets(moves), Currents(moves));
  }

  lemma ClosedIntersection(moves: set<Move>, c: set<Move>, d: set<Move>)
    requires Injective(moves) && c <= moves && d <= moves && Closed(c) && Closed(d)
    ensures Closed(c * d)
  {
    assert Targets(c * d) == Targets(c) * Targets(d);
    assert Currents(c * d) == Currents(c) * Currents(d);
  }

  lemma ClosedDifference(moves: set<Move>, c: set<Move>, d: set<Move>)
    requires Injective(moves) && d <= c <= moves && Closed(c) && Closed(d)
    ensures Closed(c - d)
  {
    assert Targets(c - d) == Targets(c) - Targets(d);
    assert Currents(c - d) == Currents(c) - Currents(d);
  }

  /** Every move of a closed set lies on a cycle inside it. */
  lemma {:induction false} CycleThrough(moves: set<Move>, c: set<Move>, m: Move) returns (cycle: set<Move>)
    requires Injective(moves) && c <= moves && Closed(c) && m in c
    ensures m in cycle && cycle <= c && IsCycle(cycle)
    decreases |c|
  {
    if IsCycle(c) {
      cycle := c;
    } else {
      var d: set<Move> :| d < c && d != {} && Closed(d);
      ClosedDifference(moves, c, d);
      var smaller := if m in d then d else c - d;
      assert |c - d| == |c| - |d|;
      cycle := CycleThrough(moves, smaller, m);
    }
  }

  /** ... and on no second one. */
  lemma CycleUnique(moves: set<Move>, c: set<Move>, d: set<Move>, m: Move)
    requires Injective(moves) && c <= moves && d <= moves && IsCycle(c) && IsCycle(d) && m in c && m in d
    ensures c == d
  {
    ClosedIntersection(moves, c, d);
    assert m in c * d;
    assert !(c * d < c) && !(c * d < d);
  }

  /** A move whose target nobody waiting holds is on no cycle, so carrying it out keeps every cycle. */
  lemma ProgressKeepsCycles(moves: set<Move>, m: Move)
    requires m in moves && m.target !in Currents(moves)
    ensures Cycles(moves - {m}) == Cycles(moves)
  {
    forall c | c in Cycles(moves)
      ensures c <= moves - {m}
    {
      assert Currents(c) <= Currents(moves);
      assert m in c ==> m.target in Currents(c);
    }
  }

  /** Moving one member of a permutation to a name nobody wants breaks exactly the cycle it is on. */
  lemma BreakRemovesOneCycle(moves: set<Move>, m: Move, parked: Move) returns (cycle: set<Move>)
    requires Injective(moves) && Closed(moves) && m in moves
    requires parked.target == m.target && parked.current !in Targets(moves)
    ensures m in cycle && cycle in Cycles(moves)
    ensures Cycles(moves - {m} + {parked}) == Cycles(moves) - {cycle}
  {
    cycle := CycleThrough(moves, moves, m);
    var after := moves - {m} + {parked};
    assert Targets(after) == Targets(moves);
    forall c | c in Cycles(after)
      ensures c in Cycles(moves) - {cycle}
    {
      assert Targets(c) <= Targets(after);
      assert parked in c ==> parked.current in Targets(c);
      assert c <= moves - {m};
    }
    forall c | c in Cycles(moves) - {cycle}
      ensures c in Cycles(after)
    {
      if m in c { CycleUnique(moves, c, cycle, m); }
    }
  }

  // ---------------------------------------------------------------------------------------------
  // Replaying rename steps on the name map
  // ---------------------------------------------------------------------------------------------

  /** The directory accepts a rename only from an existing name to a free one. */
  ghost predicate Accepted(names: Names, step: Step) { step.from in names && step.to !in names }

  ghost function Rename(names: Names, step: Step): Names
    requires step.from in names
  {
    (names - {step.from})[step.to := names[step.from]]
  }

  ghost predicate ReplayOk(names: Names, steps: seq<Step>)
    decreases |steps|, 0
  {
    steps == [] ||
    (ReplayOk(names, steps[..|steps| - 1]) &&
     Accepted(Replay(names, steps[..|steps| - 1]), steps[|steps| - 1]))
  }

  ghost function Replay(names: Names, steps: seq<Step>): Names
    requires ReplayOk(names, steps)
    decreases |steps|, 1
  {
    if steps == [] then names
    else Rename(Replay(names, steps[..|steps| - 1]), steps[|steps| - 1])
  }

  lemma ReplayAppend(names: Names, steps: seq<Step>, step: Step)
    requires ReplayOk(names, steps) && Accepted(Replay(names, steps), step)
    ensures ReplayOk(names, steps + [step])
    ensures Replay(names, steps + [step]) == Rename(Replay(names, steps), step)
  {
    assert (steps + [step])[..|steps + [step]| - 1] == steps;
  }

  // ---------------------------------------------------------------------------------------------
  // What the caller supplies and what it may rely on
  // ---------------------------------------------------------------------------------------------

  ghost function Sources(plans: seq<Plan>): set<string> { set p | p in plans :: p.source }

  ghost function PlanTargets(plans: seq<Plan>): set<string> { set p | p in plans :: p.target }

  ghost function InitialMoves(plans: seq<Plan>): set<Move>
  {
    set p | p in plans && p.source != p.target :: Move(p.source, p.target, p.selector)
  }

  /** The temporary name built from the first `length` digest bytes. */
  function TemporaryName(selector: Selector, length: nat): string
    requires 2 * length <= |selector.digest|
  {
    "dkimtmp-" + selector.digest[..2 * length]
  }

  /** Distinct sources that exist, distinct targets that are free or held by a planned selector. */
  ghost predicate PlansFit(plans: seq<Plan>, names: Names)
  {
    && (forall p :: p in plans ==> p.source in names && names[p.source] == p.selector && |p.selector.digest| == 64)
    && (forall i,
        j :: 0 <= i < j < |plans| ==> plans[i].source != plans[j].source && plans[i].target != plans[j].target)
    && (forall p :: p in plans && p.target in names ==> p.target in Sources(plans))
  }

  /** The last-resort temporary name, which the planner does not check, is free; no temporary name is a slot name. */
  ghost predicate TemporariesFit(plans: seq<Plan>, names: Names)
  {
    && (forall p :: p in plans && |p.selector.digest| == 64 ==> TemporaryName(p.selector, 27) !in names)
    && (forall p, length :: p in plans && |p.selector.digest| == 64 && 6 <= length <= 27 ==>
          TemporaryName(p.selector, length) !in PlanTargets(plans))
  }

  /** Every planned selector sits at its target and every other name is as it was. */
  ghost predicate Reconciled(plans: seq<Plan>, names: Names, final: Names)
  {
    && final.Keys == (names.Keys - Sources(plans)) + PlanTargets(plans)
    && (forall p :: p in plans ==> p.target in final && final[p.target] == p.selector)
    && (forall n :: n in names && n !in Sources(plans) ==> n in final && final[n] == names[n])
  }

  /** Only selectors that are not active ever receive a name that is no slot name. */
  ghost predicate OnlyInactiveParked(plans: seq<Plan>, names: Names, steps: seq<Step>)
  {
    forall i :: 0 <= i < |steps| && steps[i].to !in PlanTargets(plans) ==>
      ReplayOk(names, steps[..i]) && steps[i].from in Replay(names, steps[..i]) &&
      !Replay(names, steps[..i])[steps[i].from].active
  }

  // ---------------------------------------------------------------------------------------------
  // The loop state
  // ---------------------------------------------------------------------------------------------

  ghost function MoveSet(moves: seq<Move>): set<Move> { set m | m in moves }

  ghost predicate DistinctMoves(moves: seq<Move>)
  {
    forall i, j :: 0 <= i < j < |moves| ==>
      moves[i].target != moves[j].target && moves[i].current != moves[j].current
  }

  /** Slot names already held by the selector planned for them. */
  ghost function Settled(plans: seq<Plan>, moves: set<Move>): set<string> { PlanTargets(plans) - Targets(moves) }

  /** Each waiting move belongs to one plan and waits at its source or, if inactive, at a temporary name. */
  ghost predicate Pending(plans: seq<Plan>, moves: set<Move>)
  {
    forall m :: m in moves ==>
      exists p ::
        && p in plans && p.target == m.target && p.selector == m.selector
        && (m.current == p.source || m.current !in PlanTargets(plans))
  }

  /** Where every selector is while `moves` are still waiting. */
  ghost predicate Located(plans: seq<Plan>, names: Names, moves: set<Move>, now: Names)
  {
    && now.Keys == (names.Keys - Sources(plans)) + Currents(moves) + Settled(plans, moves)
    && Currents(moves) !! Settled(plans, moves)
    && Currents(moves) !! (names.Keys - Sources(plans))
    && (forall m :: m in moves ==> m.current in now && now[m.current] == m.selector)
    && (forall p :: p in plans && p.target !in Targets(moves) ==> p.target in now && now[p.target] == p.selector)
    && (forall n :: n in names && n !in Sources(plans) ==> n in now && now[n] == names[n])
  }

  lemma DistinctIsInjective(moves: seq<Move>)
    requires DistinctMoves(moves)
    ensures Injective(MoveSet(moves)) && |MoveSet(moves)| == |moves|
  {
    if moves != [] {
      var rest := moves[..|moves| - 1];
      assert moves == rest + [moves[|moves| - 1]];
      DistinctIsInjective(rest);
      assert MoveSet(moves) == MoveSet(rest) + {moves[|moves| - 1]};
    }
  }

  lemma InitialMovesFacts(plans: seq<Plan>, names: Names)
    requires PlansFit(plans, names)
    ensures forall p :: p in plans && p.source != p.target ==>
      p.target in Targets(InitialMoves(plans)) && p.source in Currents(InitialMoves(plans))
    ensures forall p :: p in plans && p.source == p.target ==>
      p.target !in Targets(InitialMoves(plans)) && p.source !in Currents(InitialMoves(plans))
    ensures Currents(InitialMoves(plans)) <= Sources(plans)
  {
    var moves := InitialMoves(plans);
    forall p | p in plans && p.source != p.target
      ensures p.target in Targets(moves) && p.source in Currents(moves)
    {
      var m := Move(p.source, p.target, p.selector);
      assert m in moves && m.target == p.target && m.current == p.source;
    }
  }

  lemma InitialLocated(plans: seq<Plan>, names: Names)
    requires PlansFit(plans, names)
    ensures Located(plans, names, InitialMoves(plans), names)
  {
    var moves := InitialMoves(plans);
    InitialMovesFacts(plans, names);
    forall s | s in Sources(plans)
      ensures s in Currents(moves) + Settled(plans, moves)
    {
      var p :| p in plans && p.source == s;
    }
    forall t | t in Settled(plans, moves)
      ensures t in Sources(plans) && t !in Currents(moves)
    {
      var p :| p in plans && p.target == t;
    }
    assert Sources(plans) <= names.Keys;
    assert names.Keys == (names.Keys - Sources(plans)) + Currents(moves) + Settled(plans, moves);
  }

  lemma RemoveMove(moves: set<Move>, m: Move)
    requires Injective(moves) && m in moves
    ensures Targets(moves - {m}) == Targets(moves) - {m.target}
    ensures Currents(moves - {m}) == Currents(moves) - {m.current}
  {}

  lemma AddMove(moves: set<Move>, m: Move)
    ensures Targets(moves + {m}) == Targets(moves) + {m.target}
    ensures Currents(moves + {m}) == Currents(moves) + {m.current}
  {}

  lemma PendingTargets(plans: seq<Plan>, moves: set<Move>)
    requires Pending(plans, moves)
    ensures Targets(moves) <= PlanTargets(plans)
  {
    forall t | t in Targets(moves)
      ensures t in PlanTargets(plans)
    {
      var x :| x in moves && x.target == t;
    }
  }

  lemma SettledGrows(plans: seq<Plan>, names: Names, moves: set<Move>, m: Move)
    requires PlansFit(plans, names) && Injective(moves) && Pending(plans, moves) && m in moves
    ensures Settled(plans, moves - {m}) == Settled(plans, moves) + {m.target}
    ensures m.target !in names.Keys - Sources(plans)
  {
    hide Sources, Injective, Pending, Targets, Currents;
    RemoveMove(moves, m);
    InjectivePart(moves, m);
    PendingTargets(plans, moves);
  }

  lemma InCurrents(moves: set<Move>, m: Move)
    requires m in moves
    ensures m.current in Currents(moves)
  {}

  lemma SettledTarget(plans: seq<Plan>, moves: set<Move>, p: Plan)
    requires p in plans
    ensures p.target in Targets(moves) || p.target in Settled(plans, moves)
  {}

  /** A name leaves the pending ones and another joins the settled ones. */
  lemma MovedName(others: set<string>, pending: set<string>, settled: set<string>, from: string, to: string)
    requires pending !! settled && pending !! others && from in pending && to !in pending
    ensures others + pending + settled - {from} + {to} == others + (pending - {from}) + (settled + {to})
    ensures pending - {from} !! settled + {to} && pending - {from} !! others
  {}

  /** No other plan has the target of a move. */
  lemma PlansOfMove(plans: seq<Plan>, names: Names, moves: set<Move>, m: Move)
    requires PlansFit(plans, names) && Pending(plans, moves) && m in moves
    ensures forall p :: p in plans && p.target == m.target ==> p.selector == m.selector
  {
    var q :| q in plans && q.target == m.target && q.selector == m.selector;
    forall p | p in plans && p.target == m.target ensures p == q {
      var i :| 0 <= i < |plans| && plans[i] == p;
      var j :| 0 <= j < |plans| && plans[j] == q;
      assert !(i < j) && !(j < i);
    }
  }

  lemma ProgressLocated(plans: seq<Plan>, names: Names, moves: set<Move>, m: Move, now: Names)
    requires PlansFit(plans, names)
    requires Injective(moves) && Pending(plans, moves) && Located(plans, names, moves, now)
    requires m in moves && m.target !in Currents(moves)
    ensures Accepted(now, Step(m.current, m.target))
    ensures Located(plans, names, moves - {m}, Rename(now, Step(m.current, m.target)))
  {
    hide PlansFit, Pending, Injective, Sources, PlanTargets, Targets, Currents;
    var rest := moves - {m};
    RemoveMove(moves, m);
    InjectivePart(moves, m);
    SettledGrows(plans, names, moves, m);
    PlansOfMove(plans, names, moves, m);
    var others := names.Keys - Sources(plans);
    MovedName(others, Currents(moves), Settled(plans, moves), m.current, m.target);
    var after := Rename(now, Step(m.current, m.target));
    assert after.Keys == now.Keys - {m.current} + {m.target};
    forall x | x in rest
      ensures x.current in after && after[x.current] == x.selector
    {
      InCurrents(rest, x);
    }
    forall p | p in plans && p.target !in Targets(rest)
      ensures p.target in after && after[p.target] == p.selector
    {
      SettledTarget(plans, moves, p);
    }
    forall n | n in names && n !in Sources(plans)
      ensures n in after && after[n] == names[n]
    {
      assert n in others;
    }
  }

  lemma BreakAccepted(plans: seq<Plan>, names: Names, moves: set<Move>, m: Move, now: Names, temporary: string)
    requires Pending(plans, moves) && Located(plans, names, moves, now)
    requires Closed(moves) && m in moves
    requires temporary !in names && temporary !in PlanTargets(plans)
    ensures temporary !in Currents(moves)
    ensures Accepted(now, Step(m.current, temporary))
  {
    PendingTargets(plans, moves);
  }

  lemma BreakSets(plans: seq<Plan>, moves: set<Move>, m: Move, temporary: string)
    requires Injective(moves) && Pending(plans, moves) && m in moves
    ensures Targets(moves - {m} + {Move(temporary, m.target, m.selector)}) == Targets(moves)
    ensures Currents(moves - {m} + {Move(temporary, m.target, m.selector)}) ==
      Currents(moves) - {m.current} + {temporary}
  {
    RemoveMove(moves, m);
    AddMove(moves - {m}, Move(temporary, m.target, m.selector));
    assert m.target in Targets(moves);
  }

  lemma BreakLocated(plans: seq<Plan>, names: Names, moves: set<Move>, m: Move, now: Names, temporary: string)
    requires PlansFit(plans, names)
    requires Injective(moves) && Pending(plans, moves) && Located(plans, names, moves, now) && m in moves
    requires temporary !in Currents(moves) && temporary !in names && temporary !in PlanTargets(plans)
    ensures Located(plans, names, moves - {m} + {Move(temporary, m.target, m.selector)},
                    Rename(now, Step(m.current, temporary)))
  {
    var after := moves - {m} + {Move(temporary, m.target, m.selector)};
    BreakSets(plans, moves, m, temporary);
    assert m.current in Currents(moves);
    assert Settled(plans, after) == Settled(plans, moves);
    var later := Rename(now, Step(m.current, temporary));
    assert later.Keys == now.Keys - {m.current} + {temporary};
    assert later[temporary] == m.selector;
    forall x | x in moves - {m}
      ensures x.current in later && later[x.current] == x.selector
    {
      assert x.current in Currents(moves) && x.current != m.current;
    }
  }

  predicate AllTaken(selector: Selector, length: nat, used: set<string>)
    requires |selector.digest| == 64 && length <= 28
  {
    forall shorter :: 6 <= shorter < length ==> TemporaryName(selector, shorter) in used
  }

  /** The first temporary name that is not in use; the longest one is returned unchecked. */
  method TemporarySelectorName(selector: Selector, used: set<string>) returns (name: string)
    requires |selector.digest| == 64
    ensures exists length ::
      && 6 <= length <= 27 && name == TemporaryName(selector, length) && (name !in used || length == 27)
      && AllTaken(selector, length, used)
  {
    for length := 6 to 28
      invariant AllTaken(selector, length, used)
    {
      name := TemporaryName(selector, length);
      if name !in used { return; }
    }
    name := TemporaryName(selector, 27);
  }

  lemma ParkedAppend(plans: seq<Plan>, names: Names, steps: seq<Step>, step: Step)
    requires OnlyInactiveParked(plans, names, steps)
    requires ReplayOk(names, steps) && Accepted(Replay(names, steps), step)
    requires step.to in PlanTargets(plans) || !Replay(names, steps)[step.from].active
    ensures OnlyInactiveParked(plans, names, steps + [step])
  {
    var more := steps + [step];
    forall i | 0 <= i < |more| && more[i].to !in PlanTargets(plans)
      ensures ReplayOk(names, more[..i]) && more[i].from in Replay(names, more[..i]) &&
        !Replay(names, more[..i])[more[i].from].active
    {
      assert more[..i] == if i < |steps| then steps[..i] else steps;
    }
  }

  lemma DropMove(moves: seq<Move>, k: nat)
    requires DistinctMoves(moves) && k < |moves|
    ensures DistinctMoves(moves[..k] + moves[k + 1..])
    ensures MoveSet(moves[..k] + moves[k + 1..]) == MoveSet(moves) - {moves[k]}
  {
    var rest := moves[..k] + moves[k + 1..];
    forall m | m in MoveSet(moves) - {moves[k]}
      ensures m in rest
    {
      var i :| 0 <= i < |moves| && moves[i] == m;
      assert rest[if i < k then i else i - 1] == m;
    }
  }

  lemma ParkMove(moves: seq<Move>, k: nat, temporary: string)
    requires DistinctMoves(moves) && k < |moves| && temporary !in Currents(MoveSet(moves))
    ensures var parked := Move(temporary, moves[k].target, moves[k].selector);
      DistinctMoves(moves[k := parked]) && MoveSet(moves[k := parked]) == MoveSet(moves) - {moves[k]} + {parked}
  {
    var parked := Move(temporary, moves[k].target, moves[k].selector);
    forall i | 0 <= i < |moves|
      ensures moves[i].current in Currents(MoveSet(moves))
    {
      assert moves[i] in MoveSet(moves);
    }
    forall m | m in MoveSet(moves) - {moves[k]} + {parked}
      ensures m in moves[k := parked]
    {
      if m != parked {
        var i :| 0 <= i < |moves| && moves[i] == m;
        assert moves[k := parked][i] == m;
      } else {
        assert moves[k := parked][k] == m;
      }
    }
  }

  /** Cycles only disappear, and each that has disappeared had a member that may be parked. */
  ghost predicate CyclesAccounted(initial: set<Move>, moves: set<Move>)
  {
    && Cycles(moves) <= Cycles(initial)
    && forall c :: c in Cycles(initial) ==> c in Cycles(moves) || !AllActive(c)
  }

  /** The invariant of the worklist loop. */
  ghost predicate Working(plans: seq<Plan>, names: Names, moves: seq<Move>, steps: seq<Step>)
  {
    && DistinctMoves(moves)
    && Pending(plans, MoveSet(moves))
    && ReplayOk(names, steps)
    && Located(plans, names, MoveSet(moves), Replay(names, steps))
    && OnlyInactiveParked(plans, names, steps)
  }

  lemma ProgressStep(plans: seq<Plan>, names: Names, moves: seq<Move>, steps: seq<Step>, k: nat)
    requires PlansFit(plans, names) && Working(plans, names, moves, steps)
    requires k < |moves| && moves[k].target !in Currents(MoveSet(moves))
    ensures Working(plans, names, moves[..k] + moves[k + 1..], steps + [Step(moves[k].current, moves[k].target)])
    ensures Cycles(MoveSet(moves[..k] + moves[k + 1..])) == Cycles(MoveSet(moves))
  {
    var m, step := moves[k], Step(moves[k].current, moves[k].target);
    DistinctIsInjective(moves);
    DropMove(moves, k);
    ProgressLocated(plans, names, MoveSet(moves), m, Replay(names, steps));
    ReplayAppend(names, steps, step);
    PendingTargets(plans, MoveSet(moves));
    assert m in MoveSet(moves) && m.target in Targets(MoveSet(moves));
    ParkedAppend(plans, names, steps, step);
    ProgressKeepsCycles(MoveSet(moves), m);
  }

  lemma BreakStep(plans: seq<Plan>, names: Names, moves: seq<Move>, steps: seq<Step>, k: nat, temporary: string)
      returns (cycle: set<Move>)
    requires PlansFit(plans, names) && Working(plans, names, moves, steps)
    requires Closed(MoveSet(moves)) && k < |moves| && !moves[k].selector.active
    requires temporary !in names && temporary !in PlanTargets(plans)
    ensures var parked := Move(temporary, moves[k].target, moves[k].selector);
      && Working(plans, names, moves[k := parked], steps + [Step(moves[k].current, temporary)])
      && Cycles(MoveSet(moves[k := parked])) == Cycles(MoveSet(moves)) - {cycle}
      && Currents(MoveSet(moves[k := parked])) == Currents(MoveSet(moves)) - {moves[k].current} + {temporary}
    ensures cycle in Cycles(MoveSet(moves)) && !AllActive(cycle)
  {
    hide Located, OnlyInactiveParked, IsCycle, ReplayOk, Replay, Settled;
    var m, step := moves[k], Step(moves[k].current, temporary);
    var parked := Move(temporary, m.target, m.selector);
    var now := Replay(names, steps);
    assert m in MoveSet(moves);
    DistinctIsInjective(moves);
    BreakAccepted(plans, names, MoveSet(moves), m, now, temporary);
    ParkMove(moves, k, temporary);
    BreakLocated(plans, names, MoveSet(moves), m, now, temporary);
    BreakSets(plans, MoveSet(moves), m, temporary);
    ReplayAppend(names, steps, step);
    ParkedAppend(plans, names, steps, step);
    PendingTargets(plans, MoveSet(moves));
    cycle := BreakRemovesOneCycle(MoveSet(moves), m, parked);
  }

  /** Among waiting moves that all block each other no target is free, so they form a permutation. */
  lemma StuckStep(plans: seq<Plan>, names: Names, moves: seq<Move>, steps: seq<Step>)
    requires Working(plans, names, moves, steps) && moves != []
    requires forall m :: m in moves ==> m.target in Currents(MoveSet(moves))
    ensures Closed(MoveSet(moves))
    ensures exists c :: c in Cycles(MoveSet(moves))
  {
    DistinctIsInjective(moves);
    StuckIsClosed(MoveSet(moves));
    var cycle := CycleThrough(MoveSet(moves), MoveSet(moves), moves[0]);
    assert cycle in Cycles(MoveSet(moves));
  }

  /** The invariant of the worklist loop with its two name sets and the step count. */
  ghost predicate LoopInvariant(plans: seq<Plan>, names: Names, moves: seq<Move>, steps: seq<Step>,
                                occupied: set<string>, used: set<string>)
  {
    && Working(plans, names, moves, steps)
    && Accounts(plans, MoveSet(moves), |moves|, |steps|, occupied)
    && names.Keys <= used
  }

  ghost predicate Accounts(plans: seq<Plan>, moves: set<Move>, waiting: nat, taken: nat, occupied: set<string>)
  {
    && occupied == Currents(moves) + Settled(plans, moves)
    && CyclesAccounted(InitialMoves(plans), moves)
    && taken + waiting + |Cycles(moves)| == |InitialMoves(plans)| + |Cycles(InitialMoves(plans))|
  }

  lemma InitialOccupied(plans: seq<Plan>, names: Names)
    requires PlansFit(plans, names)
    ensures Sources(plans) == Currents(InitialMoves(plans)) + Settled(plans, InitialMoves(plans))
  {
    InitialMovesFacts(plans, names);
    var initial := InitialMoves(plans);
    forall s | s in Sources(plans)
      ensures s in Currents(initial) + Settled(plans, initial)
    {
      var p :| p in plans && p.source == s;
    }
    forall t | t in Settled(plans, initial)
      ensures t in Sources(plans)
    {
      var p :| p in plans && p.target == t;
    }
  }

  lemma LoopStart(plans: seq<Plan>, names: Names, moves: seq<Move>)
    requires PlansFit(plans, names) && MoveSet(moves) == InitialMoves(plans) && DistinctMoves(moves)
    requires Pending(plans, MoveSet(moves))
    ensures LoopInvariant(plans, names, moves, [], Sources(plans), names.Keys)
  {
    InitialLocated(plans, names);
    InitialOccupied(plans, names);
    DistinctIsInjective(moves);
  }

  lemma LoopProgress(plans: seq<Plan>, names: Names, moves: seq<Move>, steps: seq<Step>, occupied: set<string>,
                     used: set<string>, k: nat)
    requires PlansFit(plans, names) && LoopInvariant(plans, names, moves, steps, occupied, used)
    requires k < |moves| && moves[k].target !in occupied
    ensures LoopInvariant(plans, names, moves[..k] + moves[k + 1..], steps + [Step(moves[k].current, moves[k].target)],
                          occupied - {moves[k].current} + {moves[k].target}, used)
  {
    var m, held := moves[k], MoveSet(moves);
    ProgressStep(plans, names, moves, steps, k);
    DistinctIsInjective(moves);
    DropMove(moves, k);
    RemoveMove(held, m);
    PendingTargets(plans, held);
    assert m in held && m.target in Targets(held) && m.current in Currents(held);
    assert Settled(plans, held - {m}) == Settled(plans, held) + {m.target};
  }

  lemma LoopBreak(plans: seq<Plan>, names: Names, moves: seq<Move>, steps: seq<Step>, occupied: set<string>,
                  used: set<string>, k: nat, temporary: string)
    requires PlansFit(plans, names) && LoopInvariant(plans, names, moves, steps, occupied, used)
    requires forall m :: m in moves ==> m.target in occupied
    requires k < |moves| && !moves[k].selector.active
    requires temporary !in names && temporary !in PlanTargets(plans)
    ensures LoopInvariant(plans, names, moves[k := Move(temporary, moves[k].target, moves[k].selector)],
                          steps + [Step(moves[k].current, temporary)],
                          occupied - {moves[k].current} + {temporary}, used + {temporary})
  {
    var m, held := moves[k], MoveSet(moves);
    LoopStuck(plans, names, moves, steps, occupied, used);
    var cycle := BreakStep(plans, names, moves, steps, k, temporary);
    BreakKeepsSettled(plans, moves, k, temporary);
    var after := MoveSet(moves[k := Move(temporary, m.target, m.selector)]);
    AccountsAfterBreak(plans, held, after, |moves|, |steps|, occupied, m.current, temporary, cycle);
  }

  lemma AccountsAfterBreak(plans: seq<Plan>, before: set<Move>, after: set<Move>, waiting: nat, taken: nat,
                           occupied: set<string>, left: string, temporary: string, cycle: set<Move>)
    requires Accounts(plans, before, waiting, taken, occupied)
    requires Currents(after) == Currents(before) - {left} + {temporary}
    requires Settled(plans, after) == Settled(plans, before) && left !in Settled(plans, before)
    requires cycle in Cycles(before) && !AllActive(cycle) && Cycles(after) == Cycles(before) - {cycle}
    ensures Accounts(plans, after, waiting, taken + 1, occupied - {left} + {temporary})
  {
    assert occupied - {left} + {temporary} == Currents(after) + Settled(plans, after);
  }

  lemma BreakKeepsSettled(plans: seq<Plan>, moves: seq<Move>, k: nat, temporary: string)
    requires DistinctMoves(moves) && Pending(plans, MoveSet(moves)) && Closed(MoveSet(moves))
    requires k < |moves| && temporary !in PlanTargets(plans)
    ensures var after := MoveSet(moves[k := Move(temporary, moves[k].target, moves[k].selector)]);
      && Settled(plans, after) == Settled(plans, MoveSet(moves))
      && |Currents(after) * PlanTargets(plans)| < |Currents(MoveSet(moves)) * PlanTargets(plans)|
      && moves[k].current !in Settled(plans, MoveSet(moves))
  {
    var m, held := moves[k], MoveSet(moves);
    DistinctIsInjective(moves);
    PendingTargets(plans, held);
    ParkMove(moves, k, temporary);
    BreakSets(plans, held, m, temporary);
    assert m in held && m.current in Currents(held);
    var after := MoveSet(moves[k := Move(temporary, m.target, m.selector)]);
    assert Currents(after) * PlanTargets(plans) == Currents(held) * PlanTargets(plans) - {m.current};
  }

  lemma LoopStuck(plans: seq<Plan>, names: Names, moves: seq<Move>, steps: seq<Step>, occupied: set<string>,
                  used: set<string>)
    requires LoopInvariant(plans, names, moves, steps, occupied, used) && moves != []
    requires forall m :: m in moves ==> m.target in occupied
    ensures Closed(MoveSet(moves))
    ensures AllActive(MoveSet(moves)) ==> exists c :: c in Cycles(InitialMoves(plans)) && AllActive(c)
  {
    forall m | m in moves
      ensures m.target in Currents(MoveSet(moves))
    {
      assert m in MoveSet(moves) && m.target in Targets(MoveSet(moves));
    }
    StuckStep(plans, names, moves, steps);
    var cycle :| cycle in Cycles(MoveSet(moves));
    assert cycle in Cycles(InitialMoves(plans));
  }

  lemma LoopEnd(plans: seq<Plan>, names: Names, steps: seq<Step>, occupied: set<string>, used: set<string>)
    requires LoopInvariant(plans, names, [], steps, occupied, used)
    ensures ReplayOk(names, steps) && Reconciled(plans, names, Replay(names, steps))
    ensures OnlyInactiveParked(plans, names, steps)
    ensures |steps| == |InitialMoves(plans)| + |Cycles(InitialMoves(plans))|
    ensures !exists c :: c in Cycles(InitialMoves(plans)) && AllActive(c)
  {
    assert MoveSet([]) == {};
    assert Cycles({}) == {};
  }

  lemma SelectorOf(plans: seq<Plan>, moves: seq<Move>, k: nat)
    requires Pending(plans, MoveSet(moves)) && k < |moves|
    ensures exists p :: p in plans && p.selector == moves[k].selector
  {
    assert moves[k] in MoveSet(moves);
  }

  /** The index of the first move whose target nobody holds, or the number of moves. */
  method FirstFree(moves: seq<Move>, occupied: set<string>) returns (k: nat)
    ensures k <= |moves|
    ensures k < |moves| ==> moves[k].target !in occupied
    ensures k == |moves| ==> forall m :: m in moves ==> m.target in occupied
  {
    for i := 0 to |moves|
      invariant forall j :: 0 <= j < i ==> moves[j].target in occupied
    {
      if moves[i].target !in occupied { return i; }
    }
    return |moves|;
  }

  /** The index of the first move of a selector that is not active, or the number of moves. */
  method FirstInactive(moves: seq<Move>) returns (k: nat)
    ensures k <= |moves|
    ensures k < |moves| ==> !moves[k].selector.active
    ensures k == |moves| ==> AllActive(MoveSet(moves))
  {
    for i := 0 to |moves|
      invariant forall j :: 0 <= j < i ==> moves[j].selector.active
    {
      if !moves[i].selector.active { return i; }
    }
    return |moves|;
  }

  /** The moves of the plans that change a name, and the names the planned selectors hold. */
  method CollectMoves(plans: seq<Plan>, ghost names: Names) returns (moves: seq<Move>, occupied: set<string>)
    requires PlansFit(plans, names)
    ensures MoveSet(moves) == InitialMoves(plans) && DistinctMoves(moves)
    ensures Pending(plans, MoveSet(moves))
    ensures occupied == Sources(plans)
  {
    moves, occupied := [], {};
    for i := 0 to |plans|
      invariant forall m :: m in moves <==>
        exists j ::
          && 0 <= j < i && plans[j].source != plans[j].target
          && m == Move(plans[j].source, plans[j].target, plans[j].selector)
      invariant DistinctMoves(moves)
      invariant forall n :: n in occupied <==> exists j :: 0 <= j < i && plans[j].source == n
    {
      occupied := occupied + {plans[i].source};
      if plans[i].source != plans[i].target {
        assert forall j :: 0 <= j < |moves| ==> moves[j] in moves;
        moves := moves + [Move(plans[i].source, plans[i].target, plans[i].selector)];
      }
    }
  }

  method PlanCnameRenames(plans: seq<Plan>, names: Names) returns (result: Result<seq<Step>>)
    requires PlansFit(plans, names) && TemporariesFit(plans, names)
    ensures result.Err? <==> exists c :: c in Cycles(InitialMoves(plans)) && AllActive(c)
    ensures result.Ok? ==>
      var steps := result.value;
      && ReplayOk(names, steps)
      && Reconciled(plans, names, Replay(names, steps))
      && OnlyInactiveParked(plans, names, steps)
      && |steps| == |InitialMoves(plans)| + |Cycles(InitialMoves(plans))|
  {
    var moves, occupied := CollectMoves(plans, names);
    var used := names.Keys;
    var steps: seq<Step> := [];
    LoopStart(plans, names, moves);
    while moves != []
      invariant LoopInvariant(plans, names, moves, steps, occupied, used)
      decreases |moves|, |Currents(MoveSet(moves)) * PlanTargets(plans)|
    {
      var k := FirstFree(moves, occupied);
      if k < |moves| {
        LoopProgress(plans, names, moves, steps, occupied, used, k);
        steps := steps + [Step(moves[k].current, moves[k].target)];
        occupied := occupied - {moves[k].current} + {moves[k].target};
        moves := moves[..k] + moves[k + 1..];
      } else {
        LoopStuck(plans, names, moves, steps, occupied, used);
        k := FirstInactive(moves);
        if k == |moves| {
          return Err(Invalid);
        }
        SelectorOf(plans, moves, k);
        var temporary := TemporarySelectorName(moves[k].selector, used);
        LoopBreak(plans, names, moves, steps, occupied, used, k, temporary);
        BreakKeepsSettled(plans, moves, k, temporary);
        steps := steps + [Step(moves[k].current, temporary)];
        occupied := occupied - {moves[k].current} + {temporary};
        used := used + {temporary};
        moves := moves[k := Move(temporary, moves[k].target, moves[k].selector)];
      }
    }
    LoopEnd(plans, names, steps, occupied, used);
    return Ok(steps);
  }
}
