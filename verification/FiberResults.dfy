/**
 What holds of every legal run of the fiber machine.
 */
module FiberResults {
  import opened Wrappers
  import opened FiberModel
  import opened FiberProofs

  /** The world after a legal run from program start. */
  function Reached(ops: seq<Op>): World
    requires LegalRun(EMPTY, ops)
  {
    After(EMPTY, ops)
  }

  lemma Good(ops: seq<Op>)
    requires LegalRun(EMPTY, ops)
    ensures Inv(Reached(ops))
  {
    EmptyIsGood();
    RunKeeps(EMPTY, ops);
  }

  /** No assertion fails and no freed fiber or null pointer is used. */
  lemma NeverBad(ops: seq<Op>)
    requires LegalRun(EMPTY, ops)
    ensures !Reached(ops).bad
  {
    Good(ops);
  }

  // -------------------------------------------------------------- lifetime

  /** A fiber is destroyed by its last reference only, when it has ended or never
      started, and never while it is the current fiber of a live thread. */
  lemma FreedFibersAreDone(ops: seq<Op>, op: Op, f: Fid)
    requires LegalRun(EMPTY, ops) && Legal(Reached(ops), op)
    requires f in Reached(ops).fibers && f !in Step(Reached(ops), op).fibers
    ensures op.Release? && Reached(ops).handles[op.h].target == f
    ensures Refs(Reached(ops).handles, f) == {op.h}
    ensures Reached(ops).fibers[f].sub ==> Reached(ops).fibers[f].state in {TERM, EXCEPT, INIT}
    ensures forall u | u in Reached(ops).threads && !Reached(ops).threads[u].at.Gone? ::
              Reached(ops).threads[u].tFiber != Some(f)
  {
    hide Reached;
    Good(ops);
    var w := Reached(ops);
    OnlyReleaseFrees(w, op, f);
    OnlyRef(w, op.h);
    assert FiberOk(w, f) && StackOk(w, f);
    LastRefIsIdle(w, op.t, op.h, f);
    assert op.h in Refs(w.handles, f);
  }

  /** Steps of client code, other than destructors and moves of control. */
  lemma ClientStepsKeepFibers(w: World, op: Op, f: Fid)
    requires Legal(w, op) && f in w.fibers
    requires !op.Release? && !op.Advance? && !op.SwapIn?
    ensures f in Step(w, op).fibers
  {
  }

  lemma OnlyReleaseFrees(w: World, op: Op, f: Fid)
    requires Inv(w) && Legal(w, op) && f in w.fibers && f !in Step(w, op).fibers
    ensures op.Release? && w.handles[op.h].target == f && w.fibers[f].rc == 1
  {
    hide Inv, Step, Legal;
    if op.Release? {
      LastReleaseFrees(w, op.t, op.h, f);
    } else if op.Advance? {
      AdvanceIsOnFiber(w, op.t);
    } else if op.SwapIn? {
      SwapInKeepsFibers(w, op.t, op.h, f);
    } else {
      ClientStepsKeepFibers(w, op, f);
    }
  }

  lemma LastReleaseFrees(w: World, t: Tid, h: Hid, f: Fid)
    requires Inv(w) && Legal(w, Release(t, h)) && f in w.fibers && f !in Step(w, Release(t, h)).fibers
    ensures w.handles[h].target == f && w.fibers[f].rc == 1
  {
    hide Inv;
    ReleaseTargetLives(w, h);
  }

  lemma SwapInKeepsFibers(w: World, t: Tid, h: Hid, f: Fid)
    requires Legal(w, SwapIn(t, h)) && f in w.fibers
    ensures f in Step(w, SwapIn(t, h)).fibers
  {
  }

  /** A waiting fiber is kept alive by the two references on its own stack. */
  lemma WaitingFibersLive(ops: seq<Op>, f: Fid)
    requires LegalRun(EMPTY, ops) && f in Reached(ops).fibers
    requires Reached(ops).fibers[f].state in {READY, HOLD}
    ensures Reached(ops).fibers[f].rc >= 2
    ensures var o := Reached(ops).fibers[f];
            o.ctx.AfterYield? && o.ctx.cur != o.ctx.yielder &&
            At(Reached(ops), o.ctx.cur, Cur(f), f) && At(Reached(ops), o.ctx.yielder, Cur(f), f)
  {
    hide Reached, Inv, At, Refs;
    Good(ops);
    WaitingOnStack(Reached(ops), f);
  }

  lemma WaitingOnStack(w: World, f: Fid)
    requires Inv(w) && f in w.fibers && w.fibers[f].state in {READY, HOLD}
    ensures w.fibers[f].rc >= 2
    ensures var o := w.fibers[f];
            o.ctx.AfterYield? && o.ctx.cur != o.ctx.yielder &&
            At(w, o.ctx.cur, Cur(f), f) && At(w, o.ctx.yielder, Cur(f), f)
  {
    hide StackOk, ThreadOk, HandleOk, IdsOk;
    assert FiberOk(w, f) && StackOk(w, f);
    WaitingStack(w, f);
    RefsPositive(w.handles, w.fibers[f].ctx.cur, w.fibers[f].ctx.yielder);
  }

  /** After `cur.reset()` the pointer kept for the last swapOut still points to a live
      fiber: the caller of swapIn holds a reference. */
  lemma RawPointerLives(ops: seq<Op>, t: Tid)
    requires LegalRun(EMPTY, ops) && t in Reached(ops).threads && Reached(ops).threads[t].at.InSub?
    ensures var th := Reached(ops).threads[t];
            th.at.f in Reached(ops).fibers && At(Reached(ops), th.at.caller, Main(t), th.at.f)
  {
    Good(ops);
    assert ThreadOk(Reached(ops), t);
  }

  // ------------------------------------------------------ thread invariant

  /** The thread-locals of a live thread, and the context its main fiber is saved in. */
  lemma ThreadView(ops: seq<Op>, t: Tid)
    requires LegalRun(EMPTY, ops) && t in Reached(ops).threads && !Reached(ops).threads[t].at.Gone?
    ensures var w, th := Reached(ops), Reached(ops).threads[t];
            && (th.tFiber.None? <==> th.main.None?)
            && (th.main.Some? ==>
                  && th.main.value in w.handles
                  && var m := w.handles[th.main.value].target;
                  && m in w.fibers && !w.fibers[m].sub && w.fibers[m].state == EXEC
                  && match th.at
                     case InMain => th.tFiber == Some(m)
                     case InSub(f, _, pc) =>
                       && th.tFiber == Some(f) && f in w.fibers && w.fibers[f].sub && w.fibers[f].home == Some(t)
                       && (!pc.Finished? && !pc.Leaving? ==> w.fibers[f].state == EXEC)
                       && th.calls > 0 && w.fibers[m].ctx == CallSite(th.calls - 1)
                     case Gone => false)
  {
    hide Reached;
    Good(ops);
    var w := Reached(ops);
    assert ThreadOk(w, t);
    var th := w.threads[t];
    if th.main.Some? {
      assert FiberOk(w, w.handles[th.main.value].target);
    }
    if th.at.InSub? {
      InControl(w, t);
    }
  }

  /** A sub-fiber in EXEC is the current fiber of its thread: at most one per thread. */
  lemma ExecIsCurrent(ops: seq<Op>, f: Fid)
    requires LegalRun(EMPTY, ops) && f in Reached(ops).fibers
    requires Reached(ops).fibers[f].sub && Reached(ops).fibers[f].state == EXEC
    ensures Reached(ops).fibers[f].home.Some?
    ensures var t := Reached(ops).fibers[f].home.value;
            t in Reached(ops).threads && Reached(ops).threads[t].tFiber == Some(f)
  {
    hide Reached;
    Good(ops);
    var w := Reached(ops);
    assert FiberOk(w, f);
    assert PcIn(w, f).Some?;
    assert ThreadOk(w, w.fibers[f].home.value);
  }

  /** Each swapIn of a thread returns exactly once, to its own call site, in order. */
  lemma CallSitesReturnOnce(ops: seq<Op>, t: Tid)
    requires LegalRun(EMPTY, ops) && t in Reached(ops).threads && !Reached(ops).threads[t].at.Gone?
    ensures var th := Reached(ops).threads[t];
            th.calls == |th.backs| + (if th.at.InSub? then 1 else 0) && th.backs == Upto(|th.backs|)
  {
    Good(ops);
    assert ThreadOk(Reached(ops), t);
  }

  /** Ids of sub-fibers are positive and distinct across all threads, and the counter
      equals the number of live fibers. */
  lemma IdsAndCount(ops: seq<Op>)
    requires LegalRun(EMPTY, ops)
    ensures Reached(ops).count == |Reached(ops).fibers|
    ensures DistinctIds(Reached(ops).fibers)
    ensures forall f | f in Reached(ops).fibers :: Reached(ops).fibers[f].sub <==> Reached(ops).fibers[f].id > 0
  {
    hide Reached;
    Good(ops);
    var w := Reached(ops);
    forall f | f in w.fibers ensures w.fibers[f].sub <==> w.fibers[f].id > 0 {
      assert FiberOk(w, f);
    }
  }

  // ------------------------------------------------------------ resumption

  predicate Ended(o: Fiber) {
    o.sub && o.state in {TERM, EXCEPT}
  }

  /** What a fiber has executed since its creation or reset fits its callback: all blocks when
      it has ended, the first ones when it waits, none when it is new. */
  ghost predicate OnCourse(o: Fiber) {
    && (Ended(o) ==> o.runs == Blocks(o.script) && (o.state == EXCEPT <==> EndsInThrow(o.script)))
    && (o.state in {READY, HOLD} ==>
          && 0 < |o.runs| <= Yields(o.script) && o.runs == Blocks(o.script)[..|o.runs|]
          && (o.state == READY <==> Readies(o.script)[|o.runs| - 1]))
    && (o.state == INIT ==> o.runs == [])
  }

  lemma IdleIsOnCourse(o: Fiber)
    requires o.sub && IdleOk(o)
    ensures OnCourse(o)
  {
    if o.state in {READY, HOLD} {
      assert (o.runs + Blocks(o.ctx.rest))[..|o.runs|] == o.runs;
    }
  }

  lemma ActiveIsOnCourse(o: Fiber, pc: Pc)
    requires o.sub && ActiveOk(o, pc)
    ensures OnCourse(o)
  {
  }

  lemma FibersAreOnCourse(w: World, f: Fid)
    requires Inv(w) && f in w.fibers && w.fibers[f].sub
    ensures OnCourse(w.fibers[f])
  {
    hide OnCourse, IdleOk, ActiveOk;
    assert FiberOk(w, f);
    if PcIn(w, f).Some? {
      ActiveIsOnCourse(w.fibers[f], PcIn(w, f).value);
    } else {
      IdleIsOnCourse(w.fibers[f]);
    }
  }

  /** A fiber that has ended has executed its callback's uninterrupted run, in one more
      swapIn than the callback has yields, and its state tells how the callback ended. */
  lemma EndedFiberRanItsCallback(ops: seq<Op>, f: Fid)
    requires LegalRun(EMPTY, ops) && f in Reached(ops).fibers && Ended(Reached(ops).fibers[f])
    ensures var o := Reached(ops).fibers[f];
            && o.runs == Blocks(o.script)
            && Concat(o.runs) == Uninterrupted(o.script)
            && |o.runs| == Yields(o.script) + 1
            && (o.state == EXCEPT <==> EndsInThrow(o.script))
  {
    hide Reached, Inv;
    Good(ops);
    FibersAreOnCourse(Reached(ops), f);
    BlocksConcat(Reached(ops).fibers[f].script);
  }

  /** A waiting fiber has executed exactly the first blocks of its callback, one per swapIn,
      and at most as many as there are yields; it is READY when the yield it executed last
      was to ready, and else in HOLD. */
  lemma WaitingFiberIsOnItsWay(ops: seq<Op>, f: Fid)
    requires LegalRun(EMPTY, ops) && f in Reached(ops).fibers
    requires Reached(ops).fibers[f].state in {READY, HOLD}
    ensures var o := Reached(ops).fibers[f];
            && 0 < |o.runs| <= Yields(o.script)
            && o.runs == Blocks(o.script)[..|o.runs|]
            && (o.state == READY <==> Readies(o.script)[|o.runs| - 1])
  {
    hide Reached, Inv;
    Good(ops);
    WaitingIsSub(Reached(ops), f);
    FibersAreOnCourse(Reached(ops), f);
  }

  lemma WaitingIsSub(w: World, f: Fid)
    requires Inv(w) && f in w.fibers && w.fibers[f].state in {READY, HOLD}
    ensures w.fibers[f].sub
  {
    assert FiberOk(w, f);
  }

  /** `runs` has one entry per swapIn: no other step of any thread adds one, and no step
      but a reset replaces the callback. */
  lemma OneRunPerSwapIn(w: World, op: Op, f: Fid)
    requires Inv(w) && Legal(w, op) && f in w.fibers && f in Step(w, op).fibers
    requires !(op.Reset? && w.handles[op.h].target == f)
    ensures var o, o1 := w.fibers[f], Step(w, op).fibers[f];
            && o1.script == o.script && o1.id == o.id
            && |o1.runs| == |o.runs| + if op.SwapIn? && w.handles[op.h].target == f then 1 else 0
  {
    hide Inv, Step, Legal;
    if op.Advance? {
      AdvanceKeepsRuns(w, op.t, f);
    } else if op.SwapIn? {
      SwapInKeepsRuns(w, op.t, op.h, f);
    } else {
      FidIsOld(w, f);
      OtherStepsKeepRuns(w, op, f);
    }
  }

  lemma FidIsOld(w: World, f: Fid)
    requires Inv(w) && f in w.fibers
    ensures f != w.nextFid
  {
    FreshFid(w);
  }

  lemma OtherStepsKeepRuns(w: World, op: Op, f: Fid)
    requires Legal(w, op) && f in w.fibers && f in Step(w, op).fibers && f != w.nextFid
    requires !op.SwapIn? && !op.Advance? && !(op.Reset? && w.handles[op.h].target == f)
    ensures var o, o1 := w.fibers[f], Step(w, op).fibers[f];
            o1.script == o.script && o1.id == o.id && o1.runs == o.runs
  {
    hide AdvanceStep, SwapInStep, Reown, MoveSet, Settled;
  }

  lemma AdvanceKeepsRuns(w: World, t: Tid, f: Fid)
    requires Inv(w) && Legal(w, Advance(t)) && f in w.fibers
    ensures f in Step(w, Advance(t)).fibers
    ensures var o, o1 := w.fibers[f], Step(w, Advance(t)).fibers[f];
            o1.script == o.script && o1.id == o.id && |o1.runs| == |o.runs|
  {
    AdvanceIsOnFiber(w, t);
    hide Step;
    hide Inv;
  }

  lemma SwapInKeepsRuns(w: World, t: Tid, h: Hid, f: Fid)
    requires Inv(w) && Legal(w, SwapIn(t, h)) && f in w.fibers && f in Step(w, SwapIn(t, h)).fibers
    ensures var o, o1 := w.fibers[f], Step(w, SwapIn(t, h)).fibers[f];
            && o1.script == o.script && o1.id == o.id
            && |o1.runs| == |o.runs| + if w.handles[h].target == f then 1 else 0
  {
    hide Inv, Step, SwappingIn, IdleOk, StackOk;
    SwapInSetup(w, t, h);
    var g := w.handles[h].target;
    var m := w.handles[w.threads[t].main.value].target;
    SwapInShape(w, Step(w, SwapIn(t, h)), t, h, g, m);
  }

  /** The swapIns of a fiber in a run, counted from its creation or last reset. */
  function SwapIns(w: World, ops: seq<Op>, f: Fid, before: nat): nat
    requires LegalRun(w, ops)
    decreases |ops|
  {
    if ops == [] then before
    else SwapIns(Step(w, ops[0]), ops[1..], f, CountSwapIn(w, ops[0], f, before))
  }

  function CountSwapIn(w: World, op: Op, f: Fid, before: nat): nat
    requires Legal(w, op)
  {
    if f !in w.fibers || (op.Reset? && w.handles[op.h].target == f) then 0
    else if op.SwapIn? && w.handles[op.h].target == f then before + 1
    else before
  }

  lemma YieldAddsNoFibers(w: World, t: Tid, f: Fid, self: Fid, cur: Hid, ready: bool, rest: Script)
    requires t in w.threads && self in w.fibers
    ensures YieldStep(w, t, f, self, cur, ready, rest).fibers.Keys == w.fibers.Keys
    ensures YieldStep(w, t, f, self, cur, ready, rest).nextFid == w.nextFid
  {
  }

  lemma AdvanceAddsNoFibers(w: World, t: Tid)
    requires t in w.threads && w.threads[t].at.InSub?
    ensures AdvanceStep(w, t).fibers.Keys == w.fibers.Keys && AdvanceStep(w, t).nextFid == w.nextFid
  {
    hide YieldStep, EmitRun, Reown, MoveSet;
    match w.threads[t].at
    case InSub(f, _, Running(cur, Yield(ready, rest))) =>
      if Self(w, t).Some? && Self(w, t).value in w.fibers {
        YieldAddsNoFibers(w, t, f, Self(w, t).value, cur, ready, rest);
      }
    case _ =>
  }

  lemma OnlyCreationAddsFibers(w: World, op: Op)
    requires Legal(w, op) && !op.GetThis? && !op.Spawn?
    ensures Step(w, op).fibers.Keys <= w.fibers.Keys
  {
    hide AdvanceStep;
    if op.Advance? {
      AdvanceAddsNoFibers(w, op.t);
    }
  }

  lemma NewFibersHaveNoRuns(w: World, op: Op, f: Fid)
    requires Legal(w, op) && f !in w.fibers && f in Step(w, op).fibers
    ensures Step(w, op).fibers[f].runs == []
  {
    if !op.GetThis? && !op.Spawn? {
      OnlyCreationAddsFibers(w, op);
    }
  }

  lemma {:induction false} RunsCountSwapIns(w: World, ops: seq<Op>, f: Fid, before: nat)
    requires Inv(w) && LegalRun(w, ops) && f in After(w, ops).fibers
    requires f in w.fibers ==> |w.fibers[f].runs| == before
    ensures |After(w, ops).fibers[f].runs| == SwapIns(w, ops, f, before)
    decreases |ops|
  {
    if ops != [] {
      StepKeeps(w, ops[0]);
      StepCountsSwapIn(w, ops[0], f, before);
      hide Inv, Step, Legal, CountSwapIn;
      RunsCountSwapIns(Step(w, ops[0]), ops[1..], f, CountSwapIn(w, ops[0], f, before));
    }
  }

  lemma StepCountsSwapIn(w: World, op: Op, f: Fid, before: nat)
    requires Inv(w) && Legal(w, op)
    requires f in w.fibers ==> |w.fibers[f].runs| == before
    ensures f in Step(w, op).fibers ==> |Step(w, op).fibers[f].runs| == CountSwapIn(w, op, f, before)
  {
    if f in Step(w, op).fibers {
      if f !in w.fibers {
        NewFibersHaveNoRuns(w, op, f);
      } else if op.Reset? && w.handles[op.h].target == f {
      } else {
        OneRunPerSwapIn(w, op, f);
        hide Inv, Step;
      }
    }
  }

  /** A callback with n yields has ended, in TERM or EXCEPT, after exactly n + 1 swapIns. */
  lemma EndsAfterYieldsPlusOne(ops: seq<Op>, f: Fid)
    requires LegalRun(EMPTY, ops) && f in Reached(ops).fibers && Reached(ops).fibers[f].sub
    ensures Ended(Reached(ops).fibers[f]) ==> SwapIns(EMPTY, ops, f, 0) == Yields(Reached(ops).fibers[f].script) + 1
    ensures Reached(ops).fibers[f].state in {READY, HOLD} ==> SwapIns(EMPTY, ops, f, 0) <= Yields(Reached(ops).fibers[f].script)
    ensures Reached(ops).fibers[f].state == INIT ==> SwapIns(EMPTY, ops, f, 0) == 0
  {
    RunsAreSwapIns(ops, f);
    Good(ops);
    FibersAreOnCourse(Reached(ops), f);
    hide Reached, SwapIns, Inv;
  }

  lemma RunsAreSwapIns(ops: seq<Op>, f: Fid)
    requires LegalRun(EMPTY, ops) && f in Reached(ops).fibers
    ensures |Reached(ops).fibers[f].runs| == SwapIns(EMPTY, ops, f, 0)
  {
    EmptyIsGood();
    RunsCountSwapIns(EMPTY, ops, f, 0);
  }

  // ----------------------------------------------------------------- reset

  /** After reset a fiber is as a new one, with its old id and references.  What the old
      callback had captured is released, and the new one's captures are all it holds. */
  lemma ResetIsFresh(ops: seq<Op>, t: Tid, h: Hid, script: Script, captures: set<Hid>)
    requires LegalRun(EMPTY, ops) && Legal(Reached(ops), Reset(t, h, script, captures))
    ensures h in Reached(ops).handles
    ensures var w := Reached(ops); var f := w.handles[h].target;
            && f in w.fibers
            && var w1 := Step(w, Reset(t, h, script, captures));
               && f in w1.fibers && w1.fibers[f] == FreshFiber(w.fibers[f].id, script, w.fibers[f].rc)
               && (forall g | g in w1.handles :: w1.handles[g].owner == Callback(f) <==> g in captures)
               && (forall g | g in w.handles && w.handles[g].owner == Callback(f) ::
                     g in w1.handles && w1.handles[g].owner == Dying(t))
  {
    hide Inv, Reached, Legal, ResetStep;
    Good(ops);
    ResetFacts(Reached(ops), t, h, script, captures);
  }

  lemma ResetFacts(w: World, t: Tid, h: Hid, script: Script, captures: set<Hid>)
    requires Inv(w) && Legal(w, Reset(t, h, script, captures))
    ensures h in w.handles && w.handles[h].target in w.fibers
    ensures var f := w.handles[h].target; var w1 := ResetStep(w, t, h, script, captures);
            && f in w1.fibers && w1.fibers[f] == FreshFiber(w.fibers[f].id, script, w.fibers[f].rc)
            && (forall g | g in w1.handles :: w1.handles[g].owner == Callback(f) <==> g in captures)
            && (forall g | g in w.handles && w.handles[g].owner == Callback(f) ::
                  g in w1.handles && w1.handles[g].owner == Dying(t))
  {
    hide StackOk, FiberOk, ThreadOk, IdsOk, CountsOk, Settled;
    assert HandleOk(w, h);
  }

  predicate Resets(w: World, op: Op, f: Fid)
    requires Legal(w, op)
  {
    op.Reset? && w.handles[op.h].target == f
  }

  predicate NeverReset(w: World, ops: seq<Op>, f: Fid)
    requires LegalRun(w, ops)
    decreases |ops|
  {
    ops == [] || (!Resets(w, ops[0], f) && NeverReset(Step(w, ops[0]), ops[1..], f))
  }

  lemma OldFidStaysGone(w: World, op: Op, f: Fid)
    requires Legal(w, op) && f !in w.fibers && f < w.nextFid
    ensures f !in Step(w, op).fibers
  {
    if !op.GetThis? && !op.Spawn? {
      OnlyCreationAddsFibers(w, op);
    }
  }

  lemma NextFidGrows(w: World, op: Op)
    requires Legal(w, op)
    ensures w.nextFid <= Step(w, op).nextFid
  {
    hide AdvanceStep, Reown, MoveSet;
    if op.Advance? {
      AdvanceAddsNoFibers(w, op.t);
    }
  }

  /** The place of a freed fiber is never used again. */
  lemma {:induction false} GoneForGood(w: World, ops: seq<Op>, f: Fid)
    requires LegalRun(w, ops) && f !in w.fibers && f < w.nextFid
    ensures f !in After(w, ops).fibers
    decreases |ops|
  {
    hide Legal, Step;
    if ops != [] {
      OldFidStaysGone(w, ops[0], f);
      NextFidGrows(w, ops[0]);
      GoneForGood(Step(w, ops[0]), ops[1..], f);
    }
  }

  lemma FidIsUsed(w: World, f: Fid)
    requires Inv(w) && f in w.fibers
    ensures f < w.nextFid
  {
    assert FiberOk(w, f);
  }

  /** Without a reset a fiber keeps its callback and its id as long as it lives. */
  lemma {:induction false} ScriptStays(w: World, ops: seq<Op>, f: Fid)
    requires Inv(w) && LegalRun(w, ops) && NeverReset(w, ops, f)
    requires f in w.fibers && f in After(w, ops).fibers
    ensures After(w, ops).fibers[f].script == w.fibers[f].script && After(w, ops).fibers[f].id == w.fibers[f].id
    ensures After(w, ops).fibers[f].sub == w.fibers[f].sub
    decreases |ops|
  {
    hide Inv, Legal, Step;
    if ops != [] {
      var w1 := Step(w, ops[0]);
      StepKeeps(w, ops[0]);
      FidIsUsed(w, f);
      NextFidGrows(w, ops[0]);
      if f !in w1.fibers {
        GoneForGood(w1, ops[1..], f);
      } else {
        OneRunPerSwapIn(w, ops[0], f);
        SubStays(w, ops[0], f);
        ScriptStays(w1, ops[1..], f);
      }
    }
  }

  lemma SubStays(w: World, op: Op, f: Fid)
    requires Inv(w) && Legal(w, op) && f in w.fibers && f in Step(w, op).fibers
    requires Inv(Step(w, op)) && Step(w, op).fibers[f].id == w.fibers[f].id
    ensures Step(w, op).fibers[f].sub == w.fibers[f].sub
  {
    hide Step, Legal;
    assert FiberOk(w, f) && FiberOk(Step(w, op), f);
  }

  /** A fiber that is reset runs its new callback as a new fiber would: whatever all threads
      do until its next reset, it has executed the first blocks of that callback, one for
      each swapIn since the reset, and has ended after one more than there are yields. */
  lemma ResetFiberRunsAnew(ops: seq<Op>, t: Tid, h: Hid, script: Script, captures: set<Hid>, more: seq<Op>)
    requires LegalRun(EMPTY, ops) && Legal(Reached(ops), Reset(t, h, script, captures))
    requires LegalRun(Step(Reached(ops), Reset(t, h, script, captures)), more)
    requires NeverReset(Step(Reached(ops), Reset(t, h, script, captures)), more, Reached(ops).handles[h].target)
    requires Reached(ops).handles[h].target in After(Step(Reached(ops), Reset(t, h, script, captures)), more).fibers
    ensures Reached(ops).handles[h].target in Reached(ops).fibers
    ensures var f, w1 := Reached(ops).handles[h].target, Step(Reached(ops), Reset(t, h, script, captures));
            var o := After(w1, more).fibers[f];
            && o.script == script && o.id == Reached(ops).fibers[f].id
            && OnCourse(o)
            && |o.runs| == SwapIns(w1, more, f, 0)
            && (Ended(o) ==> SwapIns(w1, more, f, 0) == Yields(script) + 1 && Concat(o.runs) == Uninterrupted(script))
  {
    hide Reached, Inv, Legal, Step, OnCourse;
    Good(ops);
    ResetIsFresh(ops, t, h, script, captures);
    var w := Reached(ops);
    var f := w.handles[h].target;
    var w1 := Step(w, Reset(t, h, script, captures));
    StepKeeps(w, Reset(t, h, script, captures));
    ScriptStays(w1, more, f);
    RunsCountSwapIns(w1, more, f, 0);
    RunKeeps(w1, more);
    FibersAreOnCourse(After(w1, more), f);
    EndedRan(After(w1, more).fibers[f]);
  }

  lemma EndedRan(o: Fiber)
    requires OnCourse(o)
    ensures Ended(o) ==> Concat(o.runs) == Uninterrupted(o.script) && |o.runs| == Yields(o.script) + 1
  {
    BlocksConcat(o.script);
  }

  // --------------------------------------------------------- when swapIn is safe

  /** No legal run from here fails an assertion or uses a freed fiber. */
  ghost predicate SafeFrom(w: World) {
    forall more | LegalRun(w, more) :: !After(w, more).bad
  }

  /** The code only checks that the fiber is not in EXEC.  For a caller in its main fiber
      that holds a reference to a fiber not started on another thread, the call and
      everything after it is safe exactly when the fiber is INIT, READY or HOLD. */
  lemma SwapInIsSafeExactlyWhen(ops: seq<Op>, t: Tid, h: Hid)
    requires LegalRun(EMPTY, ops) && t in Reached(ops).threads && Reached(ops).threads[t].at == InMain
    requires Reached(ops).threads[t].main.Some? && Settled(Reached(ops), t)
    requires h in Reached(ops).handles && Reached(ops).handles[h].owner == Main(t)
    requires Reached(ops).handles[h].target in Reached(ops).fibers
    requires OnThread(Reached(ops).fibers[Reached(ops).handles[h].target], t)
    ensures SafeFrom(SwapInStep(Reached(ops), t, h)) <==>
              Reached(ops).fibers[Reached(ops).handles[h].target].state in {INIT, READY, HOLD}
  {
    hide Reached, Inv, SwapInStep, SafeFrom, Settled;
    Good(ops);
    var w := Reached(ops);
    var state := w.fibers[w.handles[h].target].state;
    if state in {INIT, READY, HOLD} {
      StepKeeps(w, SwapIn(t, h));
      GoodIsSafe(SwapInStep(w, t, h));
    } else {
      EndedSwapInIsBad(w, t, h);
      BadIsNotSafe(SwapInStep(w, t, h));
    }
  }

  /** A good world is safe. */
  lemma GoodIsSafe(w: World)
    requires Inv(w)
    ensures SafeFrom(w)
  {
    hide Inv;
    forall more | LegalRun(w, more) ensures !After(w, more).bad {
      RunKeeps(w, more);
      NotBad(After(w, more));
    }
  }

  lemma NotBad(w: World)
    requires Inv(w)
    ensures !w.bad
  {
  }

  lemma BadIsNotSafe(w: World)
    requires w.bad
    ensures !SafeFrom(w)
  {
    assert LegalRun(w, []) && After(w, []) == w;
  }

  /** The `!= EXEC` check stops a running fiber only; an ended one runs into the line after
      the last swapOut. */
  lemma EndedSwapInIsBad(w: World, t: Tid, h: Hid)
    requires Inv(w) && t in w.threads && w.threads[t].at == InMain && h in w.handles
    requires w.handles[h].target in w.fibers && OnThread(w.fibers[w.handles[h].target], t)
    requires w.fibers[w.handles[h].target].state !in {INIT, READY, HOLD}
    ensures SwapInStep(w, t, h).bad
  {
    hide Inv, MoveSet;
    IdleInMain(w, t, w.handles[h].target);
  }

  /** What is not waiting for its turn cannot be resumed. */
  lemma IdleInMain(w: World, t: Tid, f: Fid)
    requires Inv(w) && t in w.threads && w.threads[t].at == InMain
    requires f in w.fibers && OnThread(w.fibers[f], t) && w.fibers[f].state !in {INIT, READY, HOLD}
    ensures w.fibers[f].state == EXEC || !(w.fibers[f].ctx.Entry? || w.fibers[f].ctx.AfterYield?)
  {
    hide StackOk, ThreadOk, HandleOk, IdsOk;
    assert FiberOk(w, f);
    assert PcIn(w, f).None?;
  }
}
