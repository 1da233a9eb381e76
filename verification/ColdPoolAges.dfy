/** Least recently staged, over whole runs: which expert an eviction removes, told from the ticks
    and from which experts each state holds, not from the pool's own clock entries. */
module ColdPoolAges {
  import opened ColdPoolModel
  import opened ColdPoolSafety
  import opened ColdPoolThrash
  import opened ColdPoolRuns

  /** A layer as the shrink leaves it, with any rows protected. */
  ghost predicate JustShrunk(p: Pool) {
    p.own == NothingStaged(p.cfg).(guarded := p.own.guarded)
  }

  // ---------------------------------------------------------------- one staging step

  /** Nothing free and nothing evictable: the state in which the staging loop breaks. */
  ghost predicate Stuck(p: Pool) {
    p.own.free == [] && Evictable(p.own.rowOrder, p.own.guarded) == []
  }

  lemma StuckStays(p: Pool, gid: nat, missing: set<Name>)
    requires p.own.TicksKnown()
    ensures Stuck(p) ==> StageOne(p, gid, missing).0 == p
    ensures !StageOne(p, gid, missing).1 ==> Stuck(p) && StageOne(p, gid, missing).0 == p
  {
    hide RowFromHost;
  }

  /** The break changes nothing: staging one demand more is one more step from where the loop
      stopped, broken off or not. */
  lemma {:induction false} StageAllInOrder(p: Pool, demand: seq<Demand>, last: Demand)
    requires p.own.TicksKnown()
    ensures StageAll(p, demand + [last]) == StageOne(StageAll(p, demand), last.gid, last.missing).0
    decreases |demand|
  {
    hide StageOne;
    if demand == [] {
      assert ([] + [last])[1..] == [];
    } else {
      var (p1, go) := StageOne(p, demand[0].gid, demand[0].missing);
      assert (demand + [last])[1..] == demand[1..] + [last];
      if go {
        StageAllInOrder(p1, demand[1..], last);
      } else {
        StuckStays(p, demand[0].gid, demand[0].missing);
        StuckStays(p, last.gid, last.missing);
      }
    }
  }

  lemma HookTickInOrder(p: Pool, demand: seq<Demand>, last: Demand)
    requires p.own.TicksKnown()
    ensures HookTick(p, demand + [last]) == StageOne(HookTick(p, demand), last.gid, last.missing).0
  {
    hide StageOne, StageAll;
    StageAllInOrder(Advance(p), demand, last);
  }

  /** The first row in order with the least tick among those that are not protected. */
  ghost predicate NotAfter(order: seq<nat>, a: nat, b: nat) {
    exists i :: 0 <= i < |order| && order[i] == a && b !in order[..i]
  }

  lemma NotAfterLater(head: nat, rest: seq<nat>, a: nat, b: nat)
    requires NotAfter(rest, a, b) && b != head
    ensures NotAfter([head] + rest, a, b)
  {
    var i :| 0 <= i < |rest| && rest[i] == a && b !in rest[..i];
    assert ([head] + rest)[i + 1] == a && ([head] + rest)[..i + 1] == [head] + rest[..i];
  }

  lemma {:induction false} OldestOfEvictable(order: seq<nat>, guarded: set<nat>, ticks: map<nat, int>, r: nat)
    requires forall q :: q in order ==> q in ticks
    requires r in order && r !in guarded && Evictable(order, guarded) != []
    ensures var victim := Oldest(Evictable(order, guarded), ticks);
            ticks[victim] < ticks[r] || (ticks[victim] == ticks[r] && NotAfter(order, victim, r))
    decreases |order|
  {
    var head, rest := order[0], order[1..];
    assert order == [head] + rest;
    if head in guarded {
      OldestOfEvictable(rest, guarded, ticks, r);
      var victim := Oldest(Evictable(rest, guarded), ticks);
      if ticks[victim] == ticks[r] { NotAfterLater(head, rest, victim, r); }
    } else {
      var rows := Evictable(order, guarded);
      assert rows[1..] == Evictable(rest, guarded);
      assert order[..0] == [];
      if r != head && Oldest(rows, ticks) != head {
        OldestOfEvictable(rest, guarded, ticks, r);
        var victim := Oldest(rows[1..], ticks);
        if ticks[victim] == ticks[r] { NotAfterLater(head, rest, victim, r); }
      } else {
        FirstIsNotAfter(order, r);
      }
    }
  }

  lemma FirstIsNotAfter(order: seq<nat>, b: nat)
    requires order != []
    ensures NotAfter(order, order[0], b)
  {
    assert b !in order[..0];
  }

  /** What one staging step does to who is resident, and since when. */
  ghost predicate StepsTo(o: Owners, o': Owners, gid: nat)
    requires o.TicksKnown()
  {
    && o'.tick == o.tick && o'.guarded == o.guarded
    && (forall h :: h in o.gidRow && h in o'.gidRow ==>
          o'.gidRow[h] == o.gidRow[h] && o.gidRow[h] in o.rowTick && o.gidRow[h] in o'.rowTick
          && o'.rowTick[o.gidRow[h]] == o.rowTick[o.gidRow[h]])
    && (forall h :: h in o'.gidRow && h !in o.gidRow ==>
          h == gid && o'.gidRow[h] in o'.rowTick && o'.rowTick[o'.gidRow[h]] == o.tick)
    && (forall h :: h in o.gidRow && h !in o'.gidRow ==>
          gid !in o.gidRow && o.free == []
          && Evictable(o.rowOrder, o.guarded) != [] && o.gidRow[h] == Oldest(Evictable(o.rowOrder, o.guarded), o.rowTick))
    && o'.rowOrder == if gid in o'.gidRow && o'.gidRow[gid] !in o.rowOrder then o.rowOrder + [o'.gidRow[gid]] else o.rowOrder
  }

  /** The owners o1 once a row is picked, at most the victim having left. */
  ghost predicate Picked(o: Owners, o1: Owners, row: nat)
    requires o.TicksKnown()
  {
    && o1.tick == o.tick && o1.guarded == o.guarded && o1.rowTick == o.rowTick && o1.rowOrder == o.rowOrder
    && (forall h :: h in o1.gidRow ==> h in o.gidRow && o1.gidRow[h] == o.gidRow[h] && o1.gidRow[h] != row)
    && (forall h :: h in o.gidRow && h !in o1.gidRow ==>
          o.free == [] && Evictable(o.rowOrder, o.guarded) != [] && o.gidRow[h] == Oldest(Evictable(o.rowOrder, o.guarded), o.rowTick))
  }

  lemma FirstFreePicked(c: Config, o: Owners)
    requires OwnersOk(c, o, {}) && o.TicksKnown() && o.free != []
    ensures Picked(o, o.(free := o.free[1..]), o.free[0])
  {
    assert o.free[0] in o.free;
  }

  lemma ReleasePicked(o: Owners, victim: nat)
    requires o.TicksKnown() && Inverse(o) && victim in o.rowGid && o.free == []
    requires Evictable(o.rowOrder, o.guarded) != [] && victim == Oldest(Evictable(o.rowOrder, o.guarded), o.rowTick)
    ensures Picked(o, Release(o, victim), victim)
  {
    hide Oldest, Evictable;
  }

  lemma PickSteps(p: Pool)
    requires p.own.TicksKnown() && OwnersOk(p.cfg, p.own, {}) && PickRow(p).1.Some?
    ensures Picked(p.own, PickRow(p).0.own, PickRow(p).1.value)
  {
    hide Mask, Partition, TicksOk, Picked, Inverse;
    if p.own.free != [] {
      FirstFreePicked(p.cfg, p.own);
    } else {
      var victim := Oldest(Evictable(p.own.rowOrder, p.own.guarded), p.own.rowTick);
      VictimOwned(p.cfg, p.own, victim);
      ReleasePicked(p.own, victim);
      assert PickRow(p).0.own == Release(p.own, victim);
    }
  }

  lemma ResidentRowsKnown(c: Config, o: Owners)
    requires OwnersOk(c, o, {})
    ensures forall h :: h in o.gidRow ==> o.gidRow[h] in o.rowTick && o.gidRow[h] in o.rowOrder
    ensures forall g, h :: g in o.gidRow && h in o.gidRow && o.gidRow[g] == o.gidRow[h] ==> g == h
  {
  }

  lemma StageOneSteps(p: Pool, full: Tensors, gid: nat, missing: set<Name>)
    requires Safe(p, full, {})
    ensures StepsTo(p.own, StageOne(p, gid, missing).0.own, gid)
  {
    KnowsTicks(p, full);
    hide Safe, PickRow, StageOne, StepsTo, Picked, OwnersOk;
    OwnersAreOk(p, full);
    if gid in p.own.gidRow {
      StageResident(p, gid, missing);
      NothingSteps(p.cfg, p.own, gid);
    } else if PickRow(p).1.None? {
      NoRowNoStep(p, gid, missing);
      NothingSteps(p.cfg, p.own, gid);
    } else {
      PickSteps(p);
      ResidentRowsKnown(p.cfg, p.own);
      StageOneOwners(p, gid, missing);
      FilledSteps(p.own, PickRow(p).0.own, gid, PickRow(p).1.value);
      ReturnedSteps(p.own, PickRow(p).0.own, gid, PickRow(p).1.value);
    }
  }

  lemma OwnersAreOk(p: Pool, full: Tensors)
    requires Safe(p, full, {})
    ensures OwnersOk(p.cfg, p.own, {})
  {
  }

  lemma NoRowNoStep(p: Pool, gid: nat, missing: set<Name>)
    requires p.own.TicksKnown() && gid !in p.own.gidRow && PickRow(p).1.None?
    ensures StageOne(p, gid, missing).0 == p
  {
    hide RowFromHost;
  }

  lemma NothingSteps(c: Config, o: Owners, gid: nat)
    requires OwnersOk(c, o, {}) && o.TicksKnown()
    ensures StepsTo(o, o, gid)
  {
    ResidentRowsKnown(c, o);
  }

  lemma FilledSteps(o: Owners, o1: Owners, gid: nat, row: nat)
    requires o.TicksKnown() && Picked(o, o1, row) && gid !in o.gidRow
    requires forall h :: h in o.gidRow ==> o.gidRow[h] in o.rowTick
    ensures StepsTo(o, Own(o1, gid, row), gid)
  {
    hide Oldest, Evictable;
  }

  lemma ReturnedSteps(o: Owners, o1: Owners, gid: nat, row: nat)
    requires o.TicksKnown() && Picked(o, o1, row) && gid !in o.gidRow
    requires forall h :: h in o.gidRow ==> o.gidRow[h] in o.rowTick
    ensures StepsTo(o, ReturnRow(o1, row), gid)
  {
    hide Oldest, Evictable;
  }

  // ---------------------------------------------------------------- runs

  /** The state after whole ticks and the first demands of one more. */
  ghost function After(p: Pool, ticks: seq<seq<Demand>>, demand: seq<Demand>): (q: Pool)
    requires p.own.TicksKnown()
    ensures q.own.TicksKnown()
  {
    HookTick(Run(p, ticks), demand)
  }

  lemma {:induction false} RunLast(p: Pool, ticks: seq<seq<Demand>>)
    requires p.own.TicksKnown() && ticks != []
    ensures Run(p, ticks) == HookTick(Run(p, ticks[..|ticks| - 1]), ticks[|ticks| - 1])
    decreases |ticks|
  {
    hide HookTick;
    if |ticks| == 1 {
      assert ticks[1..] == [] && ticks[..0] == [];
    } else {
      var n := |ticks| - 1;
      RunLast(HookTick(p, ticks[0]), ticks[1..]);
      assert ticks[1..][..n - 1] == ticks[..n][1..];
    }
  }

  /** The tick in which an expert came to be resident: it was not, the demand before. */
  ghost function StagedIn(p: Pool, ticks: seq<seq<Demand>>, demand: seq<Demand>, gid: nat): int
    requires p.own.TicksKnown()
    decreases |ticks|, |demand|
  {
    if demand != [] then
      var before := demand[..|demand| - 1];
      if gid in After(p, ticks, before).own.gidRow then StagedIn(p, ticks, before, gid) else |ticks| + 1
    else if ticks == [] then 0
    else StagedIn(p, ticks[..|ticks| - 1], ticks[|ticks| - 1], gid)
  }

  /** The staging rows in the order in which they first held an expert. */
  ghost function RowsInOrder(p: Pool, ticks: seq<seq<Demand>>, demand: seq<Demand>): seq<nat>
    requires p.own.TicksKnown()
    decreases |ticks|, |demand|
  {
    if demand != [] then
      var rows := RowsInOrder(p, ticks, demand[..|demand| - 1]);
      var gid, gidRow := demand[|demand| - 1].gid, After(p, ticks, demand).own.gidRow;
      if gid in gidRow && gidRow[gid] !in rows then rows + [gidRow[gid]] else rows
    else if ticks == [] then []
    else RowsInOrder(p, ticks[..|ticks| - 1], ticks[|ticks| - 1])
  }

  lemma AfterIsSafe(p: Pool, full: Tensors, ticks: seq<seq<Demand>>, demand: seq<Demand>)
    requires Safe(p, full, {})
    ensures Safe(After(p, ticks, demand), full, {})
  {
    KnowsTicks(p, full);
    hide Safe, HookTick, Run;
    RunKeepsSafe(p, full, ticks);
    HookTickKeepsSafe(Run(p, ticks), full, demand);
  }

  /** The pool's own entries agree with the history. */
  ghost predicate Dated(o: Owners, p: Pool, ticks: seq<seq<Demand>>, demand: seq<Demand>)
    requires p.own.TicksKnown()
  {
    && o.tick == |ticks| + 1
    && (forall h :: h in o.gidRow ==> o.gidRow[h] in o.rowTick && o.rowTick[o.gidRow[h]] == StagedIn(p, ticks, demand, h))
    && o.rowOrder == RowsInOrder(p, ticks, demand)
  }

  /** A tick starts with the clock one further and nobody moved. */
  lemma NextTickDated(p: Pool, ticks: seq<seq<Demand>>)
    requires p.own.TicksKnown() && JustShrunk(p)
    requires ticks != [] ==> Dated(Run(p, ticks).own, p, ticks[..|ticks| - 1], ticks[|ticks| - 1])
    ensures Dated(After(p, ticks, []).own, p, ticks, [])
  {
    assert After(p, ticks, []) == Advance(Run(p, ticks));
  }

  lemma DatedStep(p: Pool, ticks: seq<seq<Demand>>, before: seq<Demand>, last: Demand, o: Owners, o': Owners)
    requires p.own.TicksKnown() && o.TicksKnown() && Dated(o, p, ticks, before) && StepsTo(o, o', last.gid)
    requires o == After(p, ticks, before).own && o' == After(p, ticks, before + [last]).own
    ensures Dated(o', p, ticks, before + [last])
  {
    hide After;
    assert (before + [last])[..|before|] == before;
  }

  lemma NextDemandDated(p: Pool, full: Tensors, ticks: seq<seq<Demand>>, before: seq<Demand>, last: Demand)
    requires Safe(p, full, {}) && p.own.TicksKnown() && Dated(After(p, ticks, before).own, p, ticks, before)
    ensures Dated(After(p, ticks, before + [last]).own, p, ticks, before + [last])
  {
    hide Safe, StageOne, HookTick, Run, Dated, StepsTo;
    HookTickInOrder(Run(p, ticks), before, last);
    AfterIsSafe(p, full, ticks, before);
    StageOneSteps(After(p, ticks, before), full, last.gid, last.missing);
    DatedStep(p, ticks, before, last, After(p, ticks, before).own, After(p, ticks, before + [last]).own);
  }

  lemma LastTickRun(p: Pool, ticks: seq<seq<Demand>>)
    requires p.own.TicksKnown() && ticks != []
    ensures Run(p, ticks) == After(p, ticks[..|ticks| - 1], ticks[|ticks| - 1])
  {
    hide HookTick, Run;
    RunLast(p, ticks);
  }

  lemma {:induction false} EveryRowIsDated(p: Pool, full: Tensors, ticks: seq<seq<Demand>>, demand: seq<Demand>)
    requires p.own.TicksKnown() && Safe(p, full, {}) && JustShrunk(p)
    ensures Dated(After(p, ticks, demand).own, p, ticks, demand)
    decreases |ticks|, |demand|
  {
    hide Dated, Safe, HookTick, Run, JustShrunk, After, StagedIn, RowsInOrder;
    if demand != [] {
      var before, last := demand[..|demand| - 1], demand[|demand| - 1];
      EveryRowIsDated(p, full, ticks, before);
      NextDemandDated(p, full, ticks, before, last);
      assert demand == before + [last];
    } else {
      if ticks != [] {
        EveryRowIsDated(p, full, ticks[..|ticks| - 1], ticks[|ticks| - 1]);
        LastTickRun(p, ticks);
      }
      NextTickDated(p, ticks);
    }
  }

  /** In every reachable state an eviction removes the expert staged in the earliest tick among all
      residents whose row is not protected, and among several of that tick the one whose row was
      first used first; it does so only for an expert that is not resident, with no row free, and
      every other resident stays where it is. */
  lemma EveryVictimIsOldest(p: Pool, full: Tensors, ticks: seq<seq<Demand>>, demand: seq<Demand>, last: Demand, gone: nat)
    requires Safe(p, full, {}) && JustShrunk(p)
    requires gone in After(p, ticks, demand).own.gidRow && gone !in After(p, ticks, demand + [last]).own.gidRow
    ensures var now, then_ := After(p, ticks, demand).own, After(p, ticks, demand + [last]).own;
            && now.free == [] && last.gid !in now.gidRow && now.gidRow[gone] !in p.own.guarded
            && (forall h :: h in now.gidRow && now.gidRow[h] !in p.own.guarded ==>
                  StagedIn(p, ticks, demand, gone) < StagedIn(p, ticks, demand, h)
                  || (StagedIn(p, ticks, demand, gone) == StagedIn(p, ticks, demand, h)
                      && NotAfter(RowsInOrder(p, ticks, demand), now.gidRow[gone], now.gidRow[h])))
            && (forall h :: h in now.gidRow && h != gone ==> h in then_.gidRow && then_.gidRow[h] == now.gidRow[h])
  {
    KnowsTicks(p, full);
    hide Safe, StageOne, HookTick, Run, StagedIn, RowsInOrder, NotAfter, JustShrunk;
    var q := After(p, ticks, demand);
    HookTickInOrder(Run(p, ticks), demand, last);
    AfterIsSafe(p, full, ticks, demand);
    StageOneSteps(q, full, last.gid, last.missing);
    EveryRowIsDated(p, full, ticks, demand);
    Apart(q, full);
    forall h | h in q.own.gidRow && q.own.gidRow[h] !in q.own.guarded
      ensures StagedIn(p, ticks, demand, gone) < StagedIn(p, ticks, demand, h)
              || (StagedIn(p, ticks, demand, gone) == StagedIn(p, ticks, demand, h)
                  && NotAfter(RowsInOrder(p, ticks, demand), q.own.gidRow[gone], q.own.gidRow[h]))
    {
      OldestOfEvictable(q.own.rowOrder, q.own.guarded, q.own.rowTick, q.own.gidRow[h]);
    }
  }

  lemma Apart(q: Pool, full: Tensors)
    requires Safe(q, full, {})
    ensures forall h :: h in q.own.gidRow ==> q.own.gidRow[h] in q.own.rowTick && q.own.gidRow[h] in q.own.rowOrder
    ensures forall g, h :: g in q.own.gidRow && h in q.own.gidRow && q.own.gidRow[g] == q.own.gidRow[h] ==> g == h
  {
    ResidentRowsKnown(q.cfg, q.own);
  }
}
