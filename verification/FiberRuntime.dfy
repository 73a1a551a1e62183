/**
 The statements of src/fiber.cc, in their order, on mutable state: the Fiber objects,
 the thread-locals and the atomic counters of the process.

 A method's preconditions are the SYLAR_ASSERTs it runs into and the pointers it
 dereferences; `Execute` proves them all from `Good`, which every step keeps.
 */
module FiberRuntime {
  import opened Wrappers
  import opened FiberModel
  import opened FiberProofs

  class Runtime {
    var fibers: map<Fid, Fiber>
    var handles: map<Hid, Handle>
    var threads: map<Tid, Thread>
    var s_fiber_id: nat
    var s_fiber_count: nat
    var created: nat
    var nextFid: Fid
    var nextHid: Hid

    function View(): World
      reads this
    {
      World(fibers, handles, threads, s_fiber_id, s_fiber_count, created, nextFid, nextHid, false)
    }

    ghost predicate Good()
      reads this
    {
      Inv(View())
    }

    constructor ()
      ensures View() == EMPTY && Good()
    {
      fibers, handles, threads := map[], map[], map[];
      s_fiber_id, s_fiber_count, created, nextFid, nextHid := 0, 0, 0, 0, 0;
      new;
      EmptyIsGood();
    }

    /** A new shared_ptr. */
    method NewRef(owner: Owner, f: Fid) returns (h: Hid)
      requires f in fibers
      modifies this`handles, this`nextHid, this`fibers
      ensures h == old(nextHid)
      ensures View() == AddHandle(old(View()), owner, f)
      ensures fibers.Keys == old(fibers).Keys
    {
      h := nextHid;
      nextHid := nextHid + 1;
      handles := handles[h := Handle(owner, f)];
      fibers := fibers[f := fibers[f].(rc := fibers[f].rc + 1)];
    }

    method SetThis(t: Tid, f: Option<Fid>)
      requires t in threads
      modifies this`threads
      ensures threads == old(threads)[t := old(threads)[t].(tFiber := f)]
    {
      threads := threads[t := threads[t].(tFiber := f)];
    }

    /** Fiber::Fiber(), which takes over the context the thread is running in. */
    method CreateMain(t: Tid) returns (f: Fid)
      requires t in threads
      modifies this
      ensures f == old(nextFid)
      ensures View() == old(View()).(
                          fibers := old(fibers)[f := Fiber(0, false, EXEC, Unset, None, 0, Some(t), Return, [])],
                          nextFid := f + 1, count := (old(s_fiber_count) + 1) % U64,
                          threads := old(threads)[t := old(threads)[t].(tFiber := Some(f))])
    {
      f := nextFid;
      nextFid := f + 1;
      fibers := fibers[f := Fiber(0, false, EXEC, Unset, None, 0, Some(t), Return, [])];
      SetThis(t, Some(f));
      s_fiber_count := (s_fiber_count + 1) % U64;
    }

    /** Fiber::GetThis, called by client code. */
    method GetThis(t: Tid)
      requires t in threads
      requires threads[t].tFiber.Some? ==> threads[t].tFiber.value in fibers
      modifies this
      ensures View() == GetThisStep(old(View()), t)
    {
      hide AddHandle;
      var owner := Here(View(), t);
      if threads[t].tFiber.Some? {
        var h := NewRef(owner, threads[t].tFiber.value);
        return;
      }
      var f := CreateMain(t);
      threads := threads[t := threads[t].(main := Some(nextHid))];
      assert threads == old(threads)[t := old(threads)[t].(tFiber := Some(f), main := Some(nextHid))];
      var main := NewRef(ThreadFiber(t), f);
      var h := NewRef(owner, f);
    }

    /** Fiber::Fiber(cb). */
    method Create(t: Tid, script: Script, captures: set<Hid>)
      requires t in threads
      modifies this
      ensures View() == SpawnStep(old(View()), t, script, captures)
    {
      var owner := Here(View(), t);
      var f := nextFid;
      nextFid := f + 1;
      s_fiber_id := (s_fiber_id + 1) % U64;
      created := created + 1;
      s_fiber_count := (s_fiber_count + 1) % U64;
      handles := MoveSet(handles, captures, Callback(f));
      fibers := fibers[f := FreshFiber(s_fiber_id, script, 0)];
      var h := NewRef(owner, f);
    }

    /** The destructor of a shared_ptr. */
    method Unref(t: Tid, h: Hid)
      requires t in threads && h in handles && handles[h].target in fibers
      requires var o := fibers[handles[h].target];
               o.rc > 0 && (o.rc == 1 ==> if o.sub then o.state in {TERM, EXCEPT, INIT} else o.cb.None? && o.state == EXEC)
      modifies this
      ensures View() == ReleaseStep(old(View()), t, h)
    {
      var f := handles[h].target;
      handles := handles - {h};
      fibers := fibers[f := fibers[f].(rc := fibers[f].rc - 1)];
      if fibers[f].rc == 0 {
        Destruct(t, f);
      }
    }

    /** ~Fiber, then the destruction of m_cb. */
    method Destruct(t: Tid, f: Fid)
      requires t in threads && f in fibers
      requires var o := fibers[f];
               if o.sub then o.state in {TERM, EXCEPT, INIT} else o.cb.None? && o.state == EXEC
      modifies this
      ensures View() == Destroy(old(View()), t, f)
    {
      s_fiber_count := (s_fiber_count + U64 - 1) % U64;
      if !fibers[f].sub && threads[t].tFiber == Some(f) {
        SetThis(t, None);
      }
      fibers := fibers - {f};
      handles := Reown(handles, Callback(f), Dying(t));
    }

    /** Fiber::reset. */
    method Reset(t: Tid, h: Hid, script: Script, captures: set<Hid>)
      requires h in handles && handles[h].target in fibers
      requires var o := fibers[handles[h].target]; o.sub && o.state in {TERM, EXCEPT, INIT}
      modifies this
      ensures View() == ResetStep(old(View()), t, h, script, captures)
    {
      var f := handles[h].target;
      handles := Reown(handles, Callback(f), Dying(t));
      handles := MoveSet(handles, captures, Callback(f));
      var o := fibers[f].(cb := Some(script), script := script, runs := []);
      o := o.(ctx := Entry, home := None);
      o := o.(state := INIT);
      fibers := fibers[f := o];
    }

    /** Fiber::swapIn; control moves to the fiber. */
    method SwapIn(t: Tid, h: Hid)
      requires t in threads && h in handles && handles[h].target in fibers
      requires fibers[handles[h].target].state != EXEC
      requires threads[t].main.Some? && threads[t].main.value in handles
      requires handles[threads[t].main.value].target in fibers
      requires handles[threads[t].main.value].target != handles[h].target
      requires fibers[handles[h].target].ctx.Entry? || fibers[handles[h].target].ctx.AfterYield?
      modifies this
      ensures View() == SwapInStep(old(View()), t, h)
    {
      hide MoveSet;
      var f := handles[h].target;
      var m := handles[threads[t].main.value].target;
      SetThis(t, Some(f));
      var o := fibers[f].(state := EXEC, home := Some(t), runs := fibers[f].runs + [[]]);
      fibers := fibers[f := o];
      var ctx := SwapContext(m, CallSite(threads[t].calls), f);
      threads := threads[t := threads[t].(calls := threads[t].calls + 1)];
      if ctx.AfterYield? {
        handles := MoveSet(handles, {ctx.yielder}, Dying(t));
        threads := threads[t := threads[t].(at := InSub(f, h, Running(ctx.cur, ctx.rest)))];
      } else {
        threads := threads[t := threads[t].(at := InSub(f, h, Enter))];
      }
      assert old(fibers)[f := o][m := old(fibers)[m].(ctx := CallSite(old(threads)[t].calls))]
          == old(fibers)[m := old(fibers)[m].(ctx := CallSite(old(threads)[t].calls))][f := o];
    }

    /** swapcontext: saves into one fiber, gives the context of another to resume. */
    method SwapContext(save: Fid, here: Context, load: Fid) returns (ctx: Context)
      requires save in fibers && load in fibers && save != load
      modifies this`fibers
      ensures ctx == old(fibers)[load].ctx
      ensures fibers == old(fibers)[save := old(fibers)[save].(ctx := here)]
    {
      fibers := fibers[save := fibers[save].(ctx := here)];
      ctx := fibers[load].ctx;
    }

    /** Fiber::swapOut of the running fiber; control moves back to the main fiber. */
    method SwapOut(t: Tid, f: Fid, here: Context)
      requires t in threads && f in fibers && threads[t].main.Some? && threads[t].main.value in handles
      requires var m := handles[threads[t].main.value].target; m in fibers && m != f && fibers[m].ctx.CallSite?
      modifies this
      ensures View() == SwapOutStep(old(View()), t, f, here)
    {
      var m := handles[threads[t].main.value].target;
      SetThis(t, Some(m));
      var ctx := SwapContext(f, here, m);
      threads := threads[t := threads[t].(at := InMain, backs := threads[t].backs + [ctx.n])];
    }

    /** What a running fiber's steps rely on. */
    predicate CanRun(t: Tid)
      reads this
    {
      t in threads && threads[t].at.InSub? &&
      var th := threads[t];
      && th.at.f in fibers && Self(View(), t) == Some(th.at.f)
      && th.main.Some? && th.main.value in handles && th.main.value < nextHid
      && (var m := handles[th.main.value].target;
          m in fibers && m != th.at.f && fibers[m].ctx.CallSite?)
      && (!th.at.pc.Finished? && !th.at.pc.Leaving? ==> fibers[th.at.f].state == EXEC)
      && (th.at.pc.Enter? ==> fibers[th.at.f].cb.Some?)
      && (th.at.pc.Running? ==> fibers[th.at.f].runs != [])
    }

    /** YieldToReady and YieldToHold, called on the stack of `f`. */
    method Yield(t: Tid, f: Fid, cur: Hid, ready: bool, rest: Script)
      requires CanRun(t) && f == threads[t].at.f && threads[t].at.pc.Running? && threads[t].tFiber == Some(f)
      modifies this
      ensures View() == YieldStep(old(View()), t, f, f, cur, ready, rest)
    {
      var self := threads[t].tFiber.value;
      var yielder := NewRef(Cur(f), self);
      fibers := fibers[self := fibers[self].(state := if ready then READY else HOLD)];
      SwapOut(t, self, AfterYield(cur, yielder, rest));
    }

    /** MainFunc, one statement at a time: `cur` comes from t_fiber, and what follows goes
        through it. */
    method MainFunc(t: Tid)
      requires CanRun(t)
      modifies this
      ensures View() == AdvanceStep(old(View()), t)
    {
      hide YieldStep, SwapOutStep, Reown, MoveSet;
      var f := threads[t].at.f;
      match threads[t].at.pc
      case Enter =>
        var self := threads[t].tFiber.value;
        var cur := NewRef(Cur(f), self);
        Goto(t, Running(cur, fibers[self].cb.value));
      case Running(cur, Emit(x, next)) =>
        var runs := fibers[f].runs;
        fibers := fibers[f := fibers[f].(runs := runs[|runs| - 1 := runs[|runs| - 1] + [x]])];
        Goto(t, Running(cur, next));
      case Running(cur, Yield(ready, next)) =>
        Yield(t, f, cur, ready, next);
      case Running(cur, Return) =>
        handles := Reown(handles, Local(f), Dying(t));
        Goto(t, Returned(cur));
      case Running(cur, Throw) =>
        handles := Reown(handles, Local(f), Dying(t));
        Goto(t, Caught(cur));
      case Returned(cur) =>
        var self := handles[cur].target;
        handles := Reown(handles, Callback(self), Dying(t));
        fibers := fibers[self := fibers[self].(cb := None)];
        Goto(t, Cleared(cur));
      case Cleared(cur) =>
        var self := handles[cur].target;
        fibers := fibers[self := fibers[self].(state := TERM)];
        Goto(t, Finished(cur));
      case Caught(cur) =>
        var self := handles[cur].target;
        fibers := fibers[self := fibers[self].(state := EXCEPT)];
        Goto(t, Finished(cur));
      case Finished(cur) =>
        var raw_ptr := handles[cur].target;
        handles := MoveSet(handles, {cur}, Dying(t));
        Goto(t, Leaving(raw_ptr));
      case Leaving(raw_ptr) =>
        SwapOut(t, raw_ptr, AfterExit);
    }

    method Goto(t: Tid, pc: Pc)
      requires t in threads && threads[t].at.InSub?
      modifies this`threads
      ensures threads == old(threads)[t := old(threads)[t].(at := old(threads)[t].at.(pc := pc))]
    {
      threads := threads[t := threads[t].(at := threads[t].at.(pc := pc))];
    }

    // ------------------------------------------------- from Good to the asserts

    lemma GetThisIsSafe(t: Tid)
      requires Good() && t in threads && !threads[t].at.Gone?
      ensures threads[t].tFiber.Some? ==> threads[t].tFiber.value in fibers
    {
      assert ThreadOk(View(), t);
    }

    lemma UnrefIsSafe(t: Tid, h: Hid)
      requires Good() && Legal(View(), Release(t, h))
      ensures handles[h].target in fibers
      ensures var o := fibers[handles[h].target];
              o.rc > 0 && (o.rc == 1 ==> if o.sub then o.state in {TERM, EXCEPT, INIT} else o.cb.None? && o.state == EXEC)
    {
      var w := View();
      ReleaseTargetLives(w, h);
      var f := w.handles[h].target;
      OnlyRef(w, h);
      assert FiberOk(w, f) && StackOk(w, f);
      if w.fibers[f].rc == 1 {
        LastRefIsIdle(w, t, h, f);
      }
    }

    lemma SwapInIsSafe(t: Tid, h: Hid)
      requires Good() && Legal(View(), Op.SwapIn(t, h))
      ensures handles[h].target in fibers && threads[t].main.value in handles
      ensures handles[threads[t].main.value].target in fibers
      ensures handles[h].target != handles[threads[t].main.value].target
      ensures var ctx := fibers[handles[h].target].ctx; ctx.Entry? || ctx.AfterYield?
    {
      var w := View();
      assert HandleOk(w, h) && ThreadOk(w, t);
      var f := w.handles[h].target;
      var m := w.handles[w.threads[t].main.value].target;
      assert FiberOk(w, f) && FiberOk(w, m);
      assert PcIn(w, f).None?;
    }

    lemma MainFuncIsSafe(t: Tid)
      requires Good() && t in threads && threads[t].at.InSub?
      ensures CanRun(t)
    {
      InControl(View(), t);
      SelfIsInControl(View(), t);
      assert HandleOk(View(), threads[t].main.value);
    }

    lemma ResetIsSafe(t: Tid, h: Hid, script: Script, captures: set<Hid>)
      requires Good() && Legal(View(), Op.Reset(t, h, script, captures))
      ensures handles[h].target in fibers
      ensures var o := fibers[handles[h].target]; o.sub && o.state in {TERM, EXCEPT, INIT}
    {
      assert HandleOk(View(), h);
    }

    lemma CopyIsSafe(h: Hid)
      requires Good() && h in handles
      ensures handles[h].target in fibers
    {
      assert HandleOk(View(), h);
    }

    /** One legal step: every assertion on its way holds, and `Good` is kept. */
    method Execute(op: Op)
      requires Good() && Legal(View(), op)
      modifies this
      ensures Good() && View() == Step(old(View()), op)
    {
      hide Inv, GetThisStep, SpawnStep, AddHandle, ReleaseStep, ResetStep, SwapInStep, AdvanceStep;
      StepKeeps(View(), op);
      match op
      case StartThread(t) =>
        threads := threads[t := Thread(None, None, InMain, 0, [])];
      case GetThis(t) =>
        GetThisIsSafe(t);
        GetThis(t);
      case Spawn(t, script, captures) =>
        Create(t, script, captures);
      case Copy(t, h, shared) =>
        CopyIsSafe(h);
        var copy := NewRef(if shared then Global else Here(View(), t), handles[h].target);
      case Drop(t, h) =>
        handles := MoveSet(handles, {h}, Dying(t));
      case Release(t, h) =>
        UnrefIsSafe(t, h);
        Unref(t, h);
      case Reset(t, h, script, captures) =>
        ResetIsSafe(t, h, script, captures);
        Reset(t, h, script, captures);
      case SwapIn(t, h) =>
        SwapInIsSafe(t, h);
        SwapIn(t, h);
      case Advance(t) =>
        MainFuncIsSafe(t);
        MainFunc(t);
      case Exit(t) =>
        handles := Reown(Reown(handles, Main(t), Dying(t)), ThreadFiber(t), Dying(t));
        threads := threads[t := threads[t].(at := Gone, main := None)];
    }

    /** A whole legal run. */
    method Run(ops: seq<Op>)
      requires Good() && LegalRun(View(), ops)
      modifies this
      ensures Good() && View() == After(old(View()), ops)
    {
      var i := 0;
      while i < |ops|
        invariant 0 <= i <= |ops|
        invariant Good() && LegalRun(View(), ops[i..])
        invariant After(View(), ops[i..]) == After(old(View()), ops)
      {
        assert ops[i..][0] == ops[i] && ops[i..][1..] == ops[i + 1..];
        hide Inv;
        hide Step;
        hide Legal;
        Execute(ops[i]);
        i := i + 1;
      }
    }
  }
}
