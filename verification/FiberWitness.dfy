/**
 Two runs of the fiber machine, step by step: one that reaches an ended fiber, which the
 check in swapIn lets through, and one in which the caller of swapIn holds no reference.
 Fiber 0 is the main fiber of thread 0 and fiber 1 a fiber whose callback just returns.
 */
module FiberWitness {
  import opened Wrappers
  import opened FiberModel
  import opened FiberResults
  import opened FiberProgress

  lemma Then(w: World, op: Op, w1: World, rest: seq<Op>)
    requires Legal(w, op) && Step(w, op) == w1 && LegalRun(w1, rest)
    ensures LegalRun(w, [op] + rest) && After(w, [op] + rest) == After(w1, rest)
  {
    Prepend(w, op, rest);
  }

  function Sub(state: State, ctx: Context, cb: Option<Script>, rc: nat, home: Option<Tid>, runs: seq<seq<int>>): Fiber {
    Fiber(1, true, state, ctx, cb, rc, home, Return, runs)
  }

  function MainFiber(ctx: Context): Fiber {
    Fiber(0, false, EXEC, ctx, None, 2, Some(0), Return, [])
  }

  const OWN: map<Hid, Handle> := map[0 := Handle(ThreadFiber(0), 0), 1 := Handle(Main(0), 0)]
  const IDLE: Thread := Thread(Some(0), Some(0), InMain, 0, [])
  const OTHER: Thread := Thread(None, None, InMain, 0, [])

  function InCall(h: Hid, pc: Pc): Thread {
    Thread(Some(1), Some(0), InSub(1, h, pc), 1, [])
  }

  // ------------------------------------------------------------- the common start

  const STARTED: World := World(map[], map[], map[0 := OTHER], 0, 0, 0, 0, 0, false)
  const MAINED: World := World(map[0 := MainFiber(Unset)], OWN, map[0 := IDLE], 0, 1, 0, 1, 2, false)

  const NEW_FIBER: Fiber := Sub(INIT, Entry, Some(Return), 1, None, [])
  const SPAWNED: World :=
    World(map[0 := MainFiber(Unset), 1 := NEW_FIBER], OWN[2 := Handle(Main(0), 1)], map[0 := IDLE], 1, 2, 1, 2, 3, false)

  const START: seq<Op> := [StartThread(0), Op.GetThis(0), Spawn(0, Return, {})]

  lemma StartStep1()
    ensures Legal(EMPTY, StartThread(0)) && Step(EMPTY, StartThread(0)) == STARTED
  {
  }

  lemma StartStep2()
    ensures Legal(STARTED, Op.GetThis(0)) && Step(STARTED, Op.GetThis(0)) == MAINED
  {
  }

  lemma StartStep3()
    ensures Legal(MAINED, Spawn(0, Return, {})) && Step(MAINED, Spawn(0, Return, {})) == SPAWNED
  {
    hide SpawnStep;
    SpawnIsSpawned();
  }

  lemma SpawnIsSpawned()
    ensures SpawnStep(MAINED, 0, Return, {}) == SPAWNED
  {
    assert MoveSet(OWN, {}, Callback(1)) == OWN;
  }

  lemma StartRuns()
    ensures LegalRun(EMPTY, START) && After(EMPTY, START) == SPAWNED
  {
    StartStep1();
    StartStep2();
    StartStep3();
    Then(MAINED, Spawn(0, Return, {}), SPAWNED, []);
    Then(STARTED, Op.GetThis(0), MAINED, [Spawn(0, Return, {})]);
    Then(EMPTY, StartThread(0), STARTED, [Op.GetThis(0), Spawn(0, Return, {})]);
  }

  // --------------------------------------------------------- MainFunc on a Return

  /** Fiber 1 in control on thread 0, called through `h`. */
  function Inside(o: Fiber, hs: map<Hid, Handle>, h: Hid, pc: Pc, nextHid: Hid, ths: map<Tid, Thread>): World {
    World(map[0 := MainFiber(CallSite(0)), 1 := o], hs, ths[0 := InCall(h, pc)], 1, 2, 1, 2, nextHid, false)
  }

  /** Nothing on thread 0 is being destroyed, and fiber 1 owns no handle. */
  predicate Plain(hs: map<Hid, Handle>, c: Hid) {
    c !in hs && forall g | g in hs :: hs[g].owner !in {Dying(0), Cur(1), Local(1), Callback(1)}
  }

  lemma EnterStep(hs: map<Hid, Handle>, h: Hid, c: Hid, ths: map<Tid, Thread>)
    requires Plain(hs, c)
    ensures var w := Inside(Sub(EXEC, Entry, Some(Return), 1, Some(0), [[]]), hs, h, Enter, c, ths);
            Legal(w, Advance(0)) &&
            Step(w, Advance(0)) == Inside(Sub(EXEC, Entry, Some(Return), 2, Some(0), [[]]), hs[c := Handle(Cur(1), 1)], h,
                                          Running(c, Return), c + 1, ths)
  {
    hide YieldStep, SwapOutStep;
  }

  lemma ReturnStep(hs: map<Hid, Handle>, h: Hid, c: Hid, ths: map<Tid, Thread>)
    requires Plain(hs, c)
    ensures var w := Inside(Sub(EXEC, Entry, Some(Return), 2, Some(0), [[]]), hs[c := Handle(Cur(1), 1)], h,
                            Running(c, Return), c + 1, ths);
            Legal(w, Advance(0)) &&
            Step(w, Advance(0)) == Inside(Sub(EXEC, Entry, Some(Return), 2, Some(0), [[]]), hs[c := Handle(Cur(1), 1)], h,
                                          Returned(c), c + 1, ths)
  {
    hide YieldStep, SwapOutStep;
  }

  lemma ClearStep(hs: map<Hid, Handle>, h: Hid, c: Hid, ths: map<Tid, Thread>)
    requires Plain(hs, c)
    ensures var w := Inside(Sub(EXEC, Entry, Some(Return), 2, Some(0), [[]]), hs[c := Handle(Cur(1), 1)], h,
                            Returned(c), c + 1, ths);
            Legal(w, Advance(0)) &&
            Step(w, Advance(0)) == Inside(Sub(EXEC, Entry, None, 2, Some(0), [[]]), hs[c := Handle(Cur(1), 1)], h,
                                          Cleared(c), c + 1, ths)
  {
    hide YieldStep, SwapOutStep;
  }

  lemma TermStep(hs: map<Hid, Handle>, h: Hid, c: Hid, ths: map<Tid, Thread>)
    requires Plain(hs, c)
    ensures var w := Inside(Sub(EXEC, Entry, None, 2, Some(0), [[]]), hs[c := Handle(Cur(1), 1)], h,
                            Cleared(c), c + 1, ths);
            Legal(w, Advance(0)) &&
            Step(w, Advance(0)) == Inside(Sub(TERM, Entry, None, 2, Some(0), [[]]), hs[c := Handle(Cur(1), 1)], h,
                                          Finished(c), c + 1, ths)
  {
    hide YieldStep, SwapOutStep;
  }

  lemma CurResetStep(hs: map<Hid, Handle>, h: Hid, c: Hid, ths: map<Tid, Thread>)
    requires Plain(hs, c)
    ensures var w := Inside(Sub(TERM, Entry, None, 2, Some(0), [[]]), hs[c := Handle(Cur(1), 1)], h,
                            Finished(c), c + 1, ths);
            Legal(w, Advance(0)) &&
            Step(w, Advance(0)) == Inside(Sub(TERM, Entry, None, 2, Some(0), [[]]), hs[c := Handle(Dying(0), 1)], h,
                                          Leaving(1), c + 1, ths)
  {
    hide YieldStep, SwapOutStep;
  }

  lemma ReleaseCurStep(hs: map<Hid, Handle>, h: Hid, c: Hid, ths: map<Tid, Thread>)
    requires Plain(hs, c)
    ensures var w := Inside(Sub(TERM, Entry, None, 2, Some(0), [[]]), hs[c := Handle(Dying(0), 1)], h,
                            Leaving(1), c + 1, ths);
            Legal(w, Release(0, c)) &&
            Step(w, Release(0, c)) == Inside(Sub(TERM, Entry, None, 1, Some(0), [[]]), hs, h, Leaving(1), c + 1, ths)
  {
    assert hs[c := Handle(Dying(0), 1)] - {c} == hs;
  }

  /** MainFunc up to its last swapOut. */
  function MainFuncSteps(c: Hid): seq<Op> {
    [Advance(0), Advance(0), Advance(0), Advance(0), Advance(0), Release(0, c)]
  }

  lemma MainFuncRuns(hs: map<Hid, Handle>, h: Hid, c: Hid, ths: map<Tid, Thread>, rest: seq<Op>)
    requires Plain(hs, c)
    requires LegalRun(Inside(Sub(TERM, Entry, None, 1, Some(0), [[]]), hs, h, Leaving(1), c + 1, ths), rest)
    ensures var w := Inside(Sub(EXEC, Entry, Some(Return), 1, Some(0), [[]]), hs, h, Enter, c, ths);
            LegalRun(w, MainFuncSteps(c) + rest) &&
            After(w, MainFuncSteps(c) + rest)
            == After(Inside(Sub(TERM, Entry, None, 1, Some(0), [[]]), hs, h, Leaving(1), c + 1, ths), rest)
  {
    hide Legal, Step, Inside, LegalRun, After;
    EnterStep(hs, h, c, ths);
    ReturnStep(hs, h, c, ths);
    ClearStep(hs, h, c, ths);
    TermStep(hs, h, c, ths);
    CurResetStep(hs, h, c, ths);
    ReleaseCurStep(hs, h, c, ths);
    var cur := hs[c := Handle(Cur(1), 1)];
    var executing, cleared, ended :=
      Sub(EXEC, Entry, Some(Return), 2, Some(0), [[]]), Sub(EXEC, Entry, None, 2, Some(0), [[]]),
      Sub(TERM, Entry, None, 2, Some(0), [[]]);
    var a := [Advance(0)];
    var r := [Release(0, c)] + rest;
    Then(Inside(ended, hs[c := Handle(Dying(0), 1)], h, Leaving(1), c + 1, ths), Release(0, c),
         Inside(Sub(TERM, Entry, None, 1, Some(0), [[]]), hs, h, Leaving(1), c + 1, ths), rest);
    Then(Inside(ended, cur, h, Finished(c), c + 1, ths), Advance(0),
         Inside(ended, hs[c := Handle(Dying(0), 1)], h, Leaving(1), c + 1, ths), r);
    Then(Inside(cleared, cur, h, Cleared(c), c + 1, ths), Advance(0), Inside(ended, cur, h, Finished(c), c + 1, ths), a + r);
    Then(Inside(executing, cur, h, Returned(c), c + 1, ths), Advance(0),
         Inside(cleared, cur, h, Cleared(c), c + 1, ths), a + (a + r));
    Then(Inside(executing, cur, h, Running(c, Return), c + 1, ths), Advance(0),
         Inside(executing, cur, h, Returned(c), c + 1, ths), a + (a + (a + r)));
    Then(Inside(Sub(EXEC, Entry, Some(Return), 1, Some(0), [[]]), hs, h, Enter, c, ths), Advance(0),
         Inside(executing, cur, h, Running(c, Return), c + 1, ths), a + (a + (a + (a + r))));
    assert a + (a + (a + (a + (a + r)))) == MainFuncSteps(c) + rest;
  }

  // ------------------------------------------------- an ended fiber passes the check

  const TO_THE_END: seq<Op> := START + ([SwapIn(0, 2)] + (MainFuncSteps(3) + [Advance(0)]))

  const BACK: Thread := Thread(Some(0), Some(0), InMain, 1, [0])
  const ENDED: World :=
    World(map[0 := MainFiber(CallSite(0)), 1 := Sub(TERM, AfterExit, None, 1, Some(0), [[]])],
          OWN[2 := Handle(Main(0), 1)], map[0 := BACK], 1, 2, 1, 2, 4, false)

  lemma FirstSwapIn()
    ensures Legal(SPAWNED, SwapIn(0, 2))
    ensures Step(SPAWNED, SwapIn(0, 2))
         == Inside(Sub(EXEC, Entry, Some(Return), 1, Some(0), [[]]), OWN[2 := Handle(Main(0), 1)], 2, Enter, 3, map[0 := IDLE])
  {
    hide MoveSet;
    assert NEW_FIBER.runs + [[]] == [[]];
    assert SwapInStep(SPAWNED, 0, 2).fibers
        == map[0 := MainFiber(CallSite(0)), 1 := Sub(EXEC, Entry, Some(Return), 1, Some(0), [[]])];
  }

  lemma LastSwapOut()
    ensures var w := Inside(Sub(TERM, Entry, None, 1, Some(0), [[]]), OWN[2 := Handle(Main(0), 1)], 2, Leaving(1), 4,
                            map[0 := IDLE]);
            Legal(w, Advance(0)) && Step(w, Advance(0)) == ENDED
  {
    hide AdvanceStep;
    LastStep();
  }

  lemma LastStep()
    ensures AdvanceStep(Inside(Sub(TERM, Entry, None, 1, Some(0), [[]]), OWN[2 := Handle(Main(0), 1)], 2, Leaving(1), 4,
                               map[0 := IDLE]), 0) == ENDED
  {
    hide YieldStep;
    var w := Inside(Sub(TERM, Entry, None, 1, Some(0), [[]]), OWN[2 := Handle(Main(0), 1)], 2, Leaving(1), 4, map[0 := IDLE]);
    assert w.threads[0].backs + [0] == [0];
    assert AdvanceStep(w, 0).threads == map[0 := BACK];
    assert AdvanceStep(w, 0).fibers == ENDED.fibers;
  }

  lemma RunsToTheEnd()
    ensures LegalRun(EMPTY, TO_THE_END) && Reached(TO_THE_END) == ENDED
  {
    hide Legal, Step, Inside, LegalRun, After;
    var hs := OWN[2 := Handle(Main(0), 1)];
    StartRuns();
    FirstSwapIn();
    LastSwapOut();
    NothingLeft(ENDED);
    Then(Inside(Sub(TERM, Entry, None, 1, Some(0), [[]]), hs, 2, Leaving(1), 4, map[0 := IDLE]), Advance(0), ENDED, []);
    assert [Advance(0)] + [] == [Advance(0)];
    MainFuncRuns(hs, 2, 3, map[0 := IDLE], [Advance(0)]);
    Then(SPAWNED, SwapIn(0, 2), Step(SPAWNED, SwapIn(0, 2)), MainFuncSteps(3) + [Advance(0)]);
    Append(EMPTY, START, [SwapIn(0, 2)] + (MainFuncSteps(3) + [Advance(0)]));
  }

  lemma NothingLeft(w: World)
    ensures LegalRun(w, []) && After(w, []) == w
  {
  }

  /** A reachable world in which the `!= EXEC` check of swapIn passes and the call goes
      wrong: the fiber has ended.  All else the caller owes is given. */
  lemma EndedFiberPassesTheCheck()
    ensures LegalRun(EMPTY, TO_THE_END) && Reached(TO_THE_END) == ENDED
    ensures ENDED.threads[0].at == InMain && ENDED.threads[0].main.Some? && Settled(ENDED, 0)
    ensures ENDED.handles[2] == Handle(Main(0), 1) && OnThread(ENDED.fibers[1], 0)
    ensures ENDED.fibers[1].state != EXEC && SwapInStep(ENDED, 0, 2).bad
  {
    RunsToTheEnd();
  }

  /** What the caller may do with it instead is reset it, or leave. */
  lemma EndedFiberCanBeReset(script: Script)
    ensures Legal(ENDED, Reset(0, 2, script, {})) && Legal(ENDED, Exit(0))
    ensures Step(ENDED, Reset(0, 2, script, {})).fibers[1] == FreshFiber(1, script, 1)
  {
  }

  // --------------------------------------- a reference that is not the caller's own

  /** The only reference to the new fiber is a shared one. */
  const SHARE: seq<Op> := [Copy(0, 2, true), Drop(0, 2), Release(0, 2), StartThread(1)]

  const SHARED: World :=
    World(map[0 := MainFiber(Unset), 1 := NEW_FIBER], OWN[3 := Handle(Global, 1)], map[0 := IDLE, 1 := OTHER],
          1, 2, 1, 2, 4, false)

  const TWO: map<Fid, Fiber> := map[0 := MainFiber(Unset), 1 := NEW_FIBER.(rc := 2)]
  const COPIED: World :=
    World(TWO, OWN[2 := Handle(Main(0), 1)][3 := Handle(Global, 1)], map[0 := IDLE], 1, 2, 1, 2, 4, false)
  const DROPPED: World :=
    World(TWO, OWN[2 := Handle(Dying(0), 1)][3 := Handle(Global, 1)], map[0 := IDLE], 1, 2, 1, 2, 4, false)

  lemma CopyStep()
    ensures Legal(SPAWNED, Copy(0, 2, true)) && Step(SPAWNED, Copy(0, 2, true)) == COPIED
  {
  }

  lemma DropStep()
    ensures Legal(COPIED, Drop(0, 2)) && Step(COPIED, Drop(0, 2)) == DROPPED
  {
  }

  lemma DyingCopyGoes()
    ensures Legal(DROPPED, Release(0, 2)) && Step(DROPPED, Release(0, 2)) == SHARED.(threads := map[0 := IDLE])
  {
    hide Destroy;
    assert DROPPED.handles - {2} == SHARED.handles;
    assert TWO[1 := NEW_FIBER] == SHARED.fibers;
  }

  lemma OtherStarts()
    ensures Legal(SHARED.(threads := map[0 := IDLE]), StartThread(1))
    ensures Step(SHARED.(threads := map[0 := IDLE]), StartThread(1)) == SHARED
  {
  }

  lemma ShareRuns()
    ensures LegalRun(SPAWNED, SHARE) && After(SPAWNED, SHARE) == SHARED
  {
    hide Legal, Step, LegalRun, After;
    CopyStep();
    DropStep();
    DyingCopyGoes();
    OtherStarts();
    NothingLeft(SHARED);
    var w := SHARED.(threads := map[0 := IDLE]);
    Then(w, StartThread(1), SHARED, []);
    assert [StartThread(1)] + [] == [StartThread(1)];
    Then(DROPPED, Release(0, 2), w, [StartThread(1)]);
    assert [Release(0, 2)] + [StartThread(1)] == [Release(0, 2), StartThread(1)];
    Then(COPIED, Drop(0, 2), DROPPED, [Release(0, 2), StartThread(1)]);
    assert [Drop(0, 2)] + [Release(0, 2), StartThread(1)] == [Drop(0, 2), Release(0, 2), StartThread(1)];
    Then(SPAWNED, Copy(0, 2, true), COPIED, [Drop(0, 2), Release(0, 2), StartThread(1)]);
    assert [Copy(0, 2, true)] + [Drop(0, 2), Release(0, 2), StartThread(1)] == SHARE;
  }

  /** What follows the call through the shared reference: MainFunc up to its last swapOut,
      while thread 1 drops that reference and with it the fiber. */
  const LOSE: seq<Op> := MainFuncSteps(4) + DROP_IT

  const LEAVING: World :=
    Inside(Sub(TERM, Entry, None, 1, Some(0), [[]]), OWN[3 := Handle(Global, 1)], 3, Leaving(1), 5,
           map[0 := IDLE, 1 := OTHER])
  const DROPPING: World := LEAVING.(handles := OWN[3 := Handle(Dying(1), 1)])
  const FREED: World := LEAVING.(handles := OWN, fibers := map[0 := MainFiber(CallSite(0))], count := 1)

  lemma SharedSwapIn()
    ensures SwapInStep(SHARED, 0, 3)
         == Inside(Sub(EXEC, Entry, Some(Return), 1, Some(0), [[]]), OWN[3 := Handle(Global, 1)], 3, Enter, 4,
                   map[0 := IDLE, 1 := OTHER])
  {
    var w1 := SwapInStep(SHARED, 0, 3);
    assert NEW_FIBER.runs + [[]] == [[]];
    assert w1.fibers == map[0 := MainFiber(CallSite(0)), 1 := Sub(EXEC, Entry, Some(Return), 1, Some(0), [[]])];
  }

  lemma LoseStep()
    ensures Legal(LEAVING, Drop(1, 3)) && Step(LEAVING, Drop(1, 3)) == DROPPING
  {
  }

  lemma BadStep()
    ensures Legal(FREED, Advance(0)) && Step(FREED, Advance(0)).bad
  {
  }

  lemma FreeStep()
    ensures Legal(DROPPING, Release(1, 3)) && Step(DROPPING, Release(1, 3)) == FREED
  {
    var w := DROPPING;
    var o := w.fibers[1].(rc := 0);
    var w2 := w.(handles := OWN, fibers := w.fibers[1 := o]);
    assert w.handles - {3} == OWN;
    assert w2.fibers - {1} == FREED.fibers;
    assert Destroy(w2, 1, 1) == FREED;
  }

  const DROP_IT: seq<Op> := [Drop(1, 3), Release(1, 3), Advance(0)]

  lemma DropItRuns()
    ensures LegalRun(LEAVING, DROP_IT) && After(LEAVING, DROP_IT).bad
  {
    hide Legal, Step, LegalRun, After, LEAVING, DROPPING, FREED;
    LoseStep();
    BadStep();
    FreeStep();
    var end := Step(FREED, Advance(0));
    NothingLeft(end);
    Then(FREED, Advance(0), end, []);
    assert [Advance(0)] + [] == [Advance(0)];
    Then(DROPPING, Release(1, 3), FREED, [Advance(0)]);
    assert [Release(1, 3)] + [Advance(0)] == [Release(1, 3), Advance(0)];
    Then(LEAVING, Drop(1, 3), DROPPING, [Release(1, 3), Advance(0)]);
    assert [Drop(1, 3)] + [Release(1, 3), Advance(0)] == DROP_IT;
  }

  lemma LoseRuns()
    ensures LegalRun(SwapInStep(SHARED, 0, 3), LOSE) && After(SwapInStep(SHARED, 0, 3), LOSE).bad
  {
    hide LegalRun, After, SwapInStep;
    SharedSwapIn();
    DropItRuns();
    MainFuncRuns(OWN[3 := Handle(Global, 1)], 3, 4, map[0 := IDLE, 1 := OTHER], DROP_IT);
  }

  /** The caller must hold the reference itself.  Here the fiber is INIT and everything else
      is as it should be, but the only reference is a shared one: the call begins well, and
      another thread can free the fiber before it leaves. */
  lemma ReferenceMustBeHeld()
    ensures LegalRun(EMPTY, START + SHARE) && Reached(START + SHARE) == SHARED
    ensures SHARED.threads[0].at == InMain && SHARED.threads[0].main.Some? && Settled(SHARED, 0)
    ensures SHARED.fibers[1].state == INIT && OnThread(SHARED.fibers[1], 0)
    ensures SHARED.handles[3] == Handle(Global, 1)
    ensures !SwapInStep(SHARED, 0, 3).bad && !SafeFrom(SwapInStep(SHARED, 0, 3))
  {
    StartRuns();
    ShareRuns();
    Append(EMPTY, START, SHARE);
    SharedSwapIn();
    LoseRuns();
  }
}
