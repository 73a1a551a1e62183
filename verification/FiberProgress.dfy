/**
 Progress of the fiber machine: a swapIn always gets back to its call site, and a fiber
 resumed again and again runs its callback to the end.
 */
module FiberProgress {
  import opened Wrappers
  import opened FiberModel
  import opened FiberProofs
  import opened FiberResults

  /** Actions before a callback's next yield or its end. */
  function Ahead(s: Script): nat {
    match s
    case Emit(_, rest) => 1 + Ahead(rest)
    case _ => 0
  }

  /** Steps of MainFunc a thread has before it, at most, until control is back in its main
      fiber. */
  function Left(w: World, t: Tid): nat
    requires t in w.threads
  {
    match w.threads[t].at
    case InSub(f, _, pc) => (
      match pc
      case Enter => 6 + if f in w.fibers && w.fibers[f].cb.Some? then Ahead(w.fibers[f].cb.value) else 0
      case Running(_, rest) => 5 + Ahead(rest)
      case Returned(_) => 4
      case Cleared(_) => 3
      case Caught(_) => 3
      case Finished(_) => 2
      case Leaving(_) => 1
      )
    case _ => 0
  }

  /** A thread that is in its main fiber or in `f`, a fiber it has resumed and holds by `h`. */
  ghost predicate Under(w: World, t: Tid, h: Hid, f: Fid) {
    && t in w.threads && w.threads[t].main.Some?
    && (w.threads[t].at.InMain? || (w.threads[t].at.InSub? && w.threads[t].at.f == f))
    && At(w, h, Main(t), f)
    && f in w.fibers && w.fibers[f].sub && w.fibers[f].home == Some(t) && w.fibers[f].runs != []
  }

  predicate SameRuns(w: World, w1: World, t: Tid, f: Fid) {
    && t in w.threads && t in w1.threads && w1.threads[t].calls == w.threads[t].calls
    && f in w.fibers && f in w1.fibers
    && w1.fibers[f].script == w.fibers[f].script && |w1.fibers[f].runs| == |w.fibers[f].runs|
  }

  // --------------------------------------------------------------- single steps

  lemma ReleaseEffect(w: World, t: Tid, g: Hid, h: Hid, f: Fid)
    requires Under(w, t, h, f) && Legal(w, Release(t, g)) && w.handles[g].target in w.fibers
    ensures var w1 := Step(w, Release(t, g));
            && t in w1.threads && w1.threads[t].(tFiber := None) == w.threads[t].(tFiber := None)
            && At(w1, h, Main(t), f)
            && w1.handles.Keys == w.handles.Keys - {g}
            && (f in w1.fibers ==> w1.fibers[f] == w.fibers[f].(rc := w1.fibers[f].rc))
  {
    assert g != h;
  }

  /** A destructor run on the thread uses up one handle. */
  lemma ReleaseGetsOn(w: World, t: Tid, g: Hid, h: Hid, f: Fid)
    requires Inv(w) && Under(w, t, h, f) && Legal(w, Release(t, g))
    ensures var w1 := Step(w, Release(t, g));
            && Inv(w1) && Under(w1, t, h, f) && SameRuns(w, w1, t, f)
            && Left(w1, t) == Left(w, t) && |w1.handles| < |w.handles|
  {
    hide Inv, Step, Legal;
    StepKeeps(w, Release(t, g));
    DyingIsThere(w, t, g);
    ReleaseTargetLives(w, g);
    ReleaseEffect(w, t, g, h, f);
    var w1 := Step(w, Release(t, g));
    ReleaseTargetLives(w1, h);
    assert |w1.handles.Keys| == |w.handles.Keys| - 1;
    assert |w1.handles| == |w1.handles.Keys| && |w.handles| == |w.handles.Keys|;
  }

  lemma DyingIsThere(w: World, t: Tid, g: Hid)
    requires Legal(w, Release(t, g))
    ensures g in w.handles
  {
  }

  /** Thread `t` has come nearer to its main fiber, and `f` is still there. */
  predicate Nearer(w: World, w1: World, t: Tid, f: Fid)
    requires t in w.threads && f in w.fibers
  {
    && t in w1.threads && w1.threads[t].calls == w.threads[t].calls
    && Left(w1, t) < Left(w, t)
    && f in w1.fibers && w1.fibers[f].home == w.fibers[f].home
  }

  lemma YieldEffect(w: World, t: Tid, f: Fid, cur: Hid, ready: bool, rest: Script)
    requires t in w.threads && f in w.fibers && 0 < Left(w, t)
    requires !YieldStep(w, t, f, f, cur, ready, rest).bad
    ensures Nearer(w, YieldStep(w, t, f, f, cur, ready, rest), t, f)
  {
  }

  lemma LeavingEffect(w: World, t: Tid, f: Fid)
    requires t in w.threads && f in w.fibers && 0 < Left(w, t)
    requires !SwapOutStep(w, t, f, AfterExit).bad
    ensures Nearer(w, SwapOutStep(w, t, f, AfterExit), t, f)
  {
  }

  lemma RunningEffect(w: World, t: Tid, f: Fid)
    requires t in w.threads && w.threads[t].at.InSub? && w.threads[t].at.f == f && f in w.fibers
    requires w.threads[t].at.pc.Running? && !w.threads[t].at.pc.rest.Yield?
    ensures Nearer(w, MainFuncStep(w, t, f), t, f)
  {
    hide YieldStep, SwapOutStep;
  }

  lemma OtherEffect(w: World, t: Tid, f: Fid)
    requires t in w.threads && w.threads[t].at.InSub? && w.threads[t].at.f == f && f in w.fibers
    requires !w.threads[t].at.pc.Running? && !w.threads[t].at.pc.Leaving?
    requires !MainFuncStep(w, t, f).bad
    ensures Nearer(w, MainFuncStep(w, t, f), t, f)
  {
    hide YieldStep, SwapOutStep;
  }

  lemma MainFuncEffect(w: World, t: Tid, f: Fid)
    requires t in w.threads && w.threads[t].at.InSub? && w.threads[t].at.f == f && f in w.fibers
    requires !MainFuncStep(w, t, f).bad
    ensures Nearer(w, MainFuncStep(w, t, f), t, f)
  {
    hide YieldStep, SwapOutStep, Nearer;
    match w.threads[t].at.pc
    case Leaving(_) => LeavingEffect(w, t, f);
    case Running(cur, Yield(ready, rest)) => YieldEffect(w, t, f, cur, ready, rest);
    case Running(_, _) => RunningEffect(w, t, f);
    case _ => OtherEffect(w, t, f);
  }

  lemma AdvanceEffect(w: World, t: Tid, f: Fid)
    requires Inv(w) && t in w.threads && w.threads[t].at.InSub? && w.threads[t].at.f == f && f in w.fibers
    requires !AdvanceStep(w, t).bad
    ensures Nearer(w, AdvanceStep(w, t), t, f)
  {
    hide Inv, Self, MainFuncStep, Nearer;
    SelfIsInControl(w, t);
    MainFuncEffect(w, t, f);
  }

  lemma OnFiberUnder(w: World, w1: World, t: Tid, h: Hid, f: Fid)
    requires Under(w, t, h, f) && OnFiber(w, w1, t, f)
    requires w1.fibers[f].home == w.fibers[f].home && w1.threads[t].calls == w.threads[t].calls
    ensures Under(w1, t, h, f) && SameRuns(w, w1, t, f)
  {
  }

  /** A step of MainFunc brings the thread nearer to its main fiber. */
  lemma AdvanceGetsOn(w: World, t: Tid, h: Hid, f: Fid)
    requires Inv(w) && Under(w, t, h, f) && Legal(w, Advance(t)) && w.threads[t].at.InSub?
    ensures var w1 := Step(w, Advance(t));
            Inv(w1) && Under(w1, t, h, f) && SameRuns(w, w1, t, f) && Left(w1, t) < Left(w, t)
  {
    hide Legal, HandlesOk, StacksOk, CountsOk, FibersOk, IdsOk, ThreadsOk, AdvanceStep, OnFiber;
    StepKeeps(w, Advance(t));
    AdvanceIsOnFiber(w, t);
    AdvanceEffect(w, t, f);
    OnFiberUnder(w, Step(w, Advance(t)), t, h, f);
  }

  // --------------------------------------------------------------------- paths

  lemma Prepend(w: World, op: Op, rest: seq<Op>)
    requires Legal(w, op) && LegalRun(Step(w, op), rest)
    ensures LegalRun(w, [op] + rest) && After(w, [op] + rest) == After(Step(w, op), rest)
  {
    assert ([op] + rest)[1..] == rest;
  }

  lemma {:induction false} Append(w: World, a: seq<Op>, b: seq<Op>)
    requires LegalRun(w, a) && LegalRun(After(w, a), b)
    ensures LegalRun(w, a + b) && After(w, a + b) == After(After(w, a), b)
    decreases |a|
  {
    hide Step, Legal;
    if a == [] {
      assert a + b == b;
    } else {
      Append(Step(w, a[0]), a[1..], b);
      assert a + b == [a[0]] + (a[1..] + b);
      Prepend(w, a[0], a[1..] + b);
    }
  }

  /** Steps of thread `t` alone. */
  predicate OwnSteps(ops: seq<Op>, t: Tid) {
    forall op | op in ops :: op == Advance(t) || (op.Release? && op.t == t)
  }

  /** By its own steps a thread gets back to its main fiber, with no destructor pending. */
  lemma {:induction false} BackToMain(w: World, t: Tid, h: Hid, f: Fid) returns (ops: seq<Op>)
    requires Inv(w) && Under(w, t, h, f)
    ensures LegalRun(w, ops) && OwnSteps(ops, t)
    ensures var w1 := After(w, ops);
            Inv(w1) && Under(w1, t, h, f) && SameRuns(w, w1, t, f) && w1.threads[t].at == InMain && Settled(w1, t)
    decreases Left(w, t), |w.handles|
  {
    hide Inv, Step, Left;
    if !Settled(w, t) {
      var g :| g in w.handles && w.handles[g].owner == Dying(t);
      ReleaseGetsOn(w, t, g, h, f);
      var rest := BackToMain(Step(w, Release(t, g)), t, h, f);
      Prepend(w, Release(t, g), rest);
      ops := [Release(t, g)] + rest;
    } else if w.threads[t].at.InSub? {
      AdvanceGetsOn(w, t, h, f);
      var rest := BackToMain(Step(w, Advance(t)), t, h, f);
      Prepend(w, Advance(t), rest);
      ops := [Advance(t)] + rest;
    } else {
      ops := [];
    }
  }

  lemma SwapInEffect(w: World, t: Tid, h: Hid)
    requires Inv(w) && Legal(w, SwapIn(t, h))
    ensures h in w.handles && w.handles[h].target in w.fibers
    ensures var f, w1 := w.handles[h].target, Step(w, SwapIn(t, h));
            && t in w.threads && Under(w1, t, h, f) && w1.threads[t].calls == w.threads[t].calls + 1
            && w1.fibers[f].script == w.fibers[f].script && |w1.fibers[f].runs| == |w.fibers[f].runs| + 1
  {
    hide Step, Inv, SwappingIn, Legal;
    SwapInOwner(w, t, h);
    SwapInSetup(w, t, h);
    var f := w.handles[h].target;
    var m := w.handles[w.threads[t].main.value].target;
    SwapInShape(w, Step(w, SwapIn(t, h)), t, h, f, m);
    SwapInShape2(w, Step(w, SwapIn(t, h)), t, h, f, m);
  }

  lemma SwapInOwner(w: World, t: Tid, h: Hid)
    requires Legal(w, SwapIn(t, h))
    ensures t in w.threads && w.threads[t].main.Some? && h in w.handles && w.handles[h].owner == Main(t)
  {
  }

  lemma ReturnsFrom(w: World, t: Tid, h: Hid) returns (more: seq<Op>)
    requires Inv(w) && Legal(w, SwapIn(t, h))
    ensures h in w.handles && w.handles[h].target in w.fibers
    ensures OwnSteps(more, t) && LegalRun(w, [SwapIn(t, h)] + more)
    ensures var f, w1 := w.handles[h].target, After(w, [SwapIn(t, h)] + more);
            && Inv(w1) && Under(w1, t, h, f) && w1.threads[t].at == InMain && Settled(w1, t)
            && t in w.threads && w1.threads[t].calls == w.threads[t].calls + 1
            && w1.fibers[f].script == w.fibers[f].script && |w1.fibers[f].runs| == |w.fibers[f].runs| + 1
  {
    hide Inv, Step, Legal;
    SwapInEffect(w, t, h);
    StepKeeps(w, SwapIn(t, h));
    more := BackToMain(Step(w, SwapIn(t, h)), t, h, w.handles[h].target);
    Prepend(w, SwapIn(t, h), more);
  }

  /** Every swapIn of a reachable world returns: steps of its own thread lead back to the
      main fiber, and to this swapIn's own call site. */
  lemma SwapInReturns(ops: seq<Op>, t: Tid, h: Hid) returns (more: seq<Op>)
    requires LegalRun(EMPTY, ops) && Legal(Reached(ops), SwapIn(t, h))
    ensures OwnSteps(more, t) && LegalRun(EMPTY, ops + ([SwapIn(t, h)] + more))
    ensures var w1 := Reached(ops + ([SwapIn(t, h)] + more));
            && t in Reached(ops).threads && t in w1.threads && w1.threads[t].at == InMain
            && w1.threads[t].backs == Upto(Reached(ops).threads[t].calls + 1)
  {
    hide LegalRun, After, Inv, Legal, OwnSteps;
    Good(ops);
    more := ReturnsFrom(Reached(ops), t, h);
    Append(EMPTY, ops, [SwapIn(t, h)] + more);
    BackAtCallSite(Reached(ops + ([SwapIn(t, h)] + more)), t, h, Reached(ops).handles[h].target);
  }

  lemma BackAtCallSite(w: World, t: Tid, h: Hid, f: Fid)
    requires Inv(w) && Under(w, t, h, f) && w.threads[t].at == InMain
    ensures w.threads[t].backs == Upto(w.threads[t].calls)
  {
    assert ThreadOk(w, t);
  }

  // ------------------------------------------------------------- to the end

  /** In its main fiber, with nothing pending, a thread may resume a fiber it has resumed
      before that has not ended. */
  lemma Resume(w: World, t: Tid, h: Hid, f: Fid)
    requires Inv(w) && Under(w, t, h, f) && w.threads[t].at == InMain && Settled(w, t)
    ensures (Ended(w.fibers[f]) && w.fibers[f].runs == Blocks(w.fibers[f].script))
            || (Legal(w, SwapIn(t, h)) && |w.fibers[f].runs| <= Yields(w.fibers[f].script))
  {
    assert FiberOk(w, f);
    assert PcIn(w, f).None?;
    var o := w.fibers[f];
    if o.state in {READY, HOLD} {
      assert |Blocks(o.script)| == |o.runs| + |Blocks(o.ctx.rest)|;
    }
  }

  lemma {:induction false} ToTheEnd(w: World, t: Tid, h: Hid) returns (ops: seq<Op>)
    requires Inv(w) && Legal(w, SwapIn(t, h))
    requires h in w.handles && w.handles[h].target in w.fibers
    requires |w.fibers[w.handles[h].target].runs| <= Yields(w.fibers[w.handles[h].target].script)
    ensures LegalRun(w, ops)
    ensures var f, w1 := w.handles[h].target, After(w, ops);
            && f in w1.fibers && w1.fibers[f].script == w.fibers[f].script
            && Ended(w1.fibers[f]) && w1.fibers[f].runs == Blocks(w1.fibers[f].script)
    decreases Yields(w.fibers[w.handles[h].target].script) - |w.fibers[w.handles[h].target].runs|
  {
    hide Inv, Step, Legal, Blocks;
    var f := w.handles[h].target;
    var back := ReturnsFrom(w, t, h);
    ops := [SwapIn(t, h)] + back;
    var w1 := After(w, ops);
    Resume(w1, t, h, f);
    if !Ended(w1.fibers[f]) || w1.fibers[f].runs != Blocks(w1.fibers[f].script) {
      var rest := ToTheEnd(w1, t, h);
      Append(w, ops, rest);
      ops := ops + rest;
    }
  }

  /** Whatever a fiber's callback is, and wherever it stands, resuming it through a
      reference its thread holds runs it to its end. */
  lemma CallbacksFinish(ops: seq<Op>, t: Tid, h: Hid) returns (more: seq<Op>)
    requires LegalRun(EMPTY, ops) && Legal(Reached(ops), SwapIn(t, h))
    ensures LegalRun(EMPTY, ops + more)
    ensures h in Reached(ops).handles && Reached(ops).handles[h].target in Reached(ops).fibers
    ensures var f := Reached(ops).handles[h].target;
            && f in Reached(ops + more).fibers && Ended(Reached(ops + more).fibers[f])
            && Concat(Reached(ops + more).fibers[f].runs) == Uninterrupted(Reached(ops).fibers[f].script)
  {
    Good(ops);
    var w := Reached(ops);
    SwapInEffect(w, t, h);
    NotYetEnded(w, t, h);
    hide Inv, Step, Legal;
    more := ToTheEnd(w, t, h);
    Append(EMPTY, ops, more);
    BlocksConcat(w.fibers[w.handles[h].target].script);
  }

  lemma NotYetEnded(w: World, t: Tid, h: Hid)
    requires Inv(w) && Legal(w, SwapIn(t, h)) && w.handles[h].target in w.fibers
    ensures |w.fibers[w.handles[h].target].runs| <= Yields(w.fibers[w.handles[h].target].script)
  {
    SwapInSetup(w, t, h);
    var f := w.handles[h].target;
    var m := w.handles[w.threads[t].main.value].target;
    SwapInShape(w, Step(w, SwapIn(t, h)), t, h, f, m);
    var o := w.fibers[f];
    if o.state in {READY, HOLD} {
      assert |Blocks(o.script)| == |o.runs| + |Blocks(o.ctx.rest)|;
    }
  }
}
