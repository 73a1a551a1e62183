/**
 The fibers of src/fiber.cc as a machine of small steps, for any number of threads.

 A saved ucontext_t is a `Context`: the continuation it resumes.  A callback is a
 `Script`.  Each shared_ptr object is a handle with an owner, and a fiber's
 reference count is a field every handle operation updates; destroying the last
 handle runs the destructor.  Steps do what the code does and nothing more: where the
 code would fail an assertion, use a freed fiber or a null pointer, they set `bad`.
 */
module FiberModel {
  import opened Wrappers

  type Tid = nat  // a thread
  type Fid = nat  // a Fiber object
  type Hid = nat  // a shared_ptr object

  const U64: nat := 0x1_0000_0000_0000_0000

  datatype State = INIT | HOLD | EXEC | TERM | READY | EXCEPT

  /** What a callback does: observable actions, yields and one end. */
  datatype Script =
    | Return
    | Throw
    | Emit(x: int, rest: Script)
    | Yield(ready: bool, rest: Script)

  datatype Context =
    | Unset
    | Entry                                              // makecontext: MainFunc
    | AfterYield(cur: Hid, yielder: Hid, rest: Script)   // inside a Yield, under MainFunc
    | AfterExit                                          // the last swapOut of MainFunc
    | CallSite(n: nat)                                   // the n-th swapIn of a thread

  /** Where a shared_ptr lives. */
  datatype Owner =
    | Main(t: Tid)         // the stack of a thread's main fiber
    | Local(f: Fid)        // the callback's part of a fiber's stack
    | Cur(f: Fid)          // `cur` in MainFunc or in a Yield, on a fiber's stack
    | Callback(f: Fid)     // captured by a fiber's m_cb
    | ThreadFiber(t: Tid)  // t_threadFiber
    | Global               // shared by all threads
    | Dying(t: Tid)        // out of scope, its destructor about to run on a thread

  datatype Handle = Handle(owner: Owner, target: Fid)

  /** `sub` is m_stack != nullptr.  `script` is the callback since the last reset and
      `runs` the actions of each swapIn since then; both only record history. */
  datatype Fiber = Fiber(id: nat, sub: bool, state: State, ctx: Context, cb: Option<Script>,
                         rc: nat, home: Option<Tid>, script: Script, runs: seq<seq<int>>)

  /** Program points of MainFunc. */
  datatype Pc =
    | Enter                            // before cur = GetThis()
    | Running(cur: Hid, rest: Script)  // inside m_cb()
    | Returned(cur: Hid)               // before m_cb = nullptr
    | Cleared(cur: Hid)                // before m_state = TERM
    | Caught(cur: Hid)                 // in a catch clause, before m_state = EXCEPT
    | Finished(cur: Hid)               // before cur.reset()
    | Leaving(raw: Fid)                // before raw_ptr->swapOut()

  datatype Place = InMain | InSub(f: Fid, caller: Hid, pc: Pc) | Gone

  /** `tFiber` and `main` are the thread-locals; `calls` counts the swapIns made and
      `backs` lists the call sites control came back to. */
  datatype Thread = Thread(tFiber: Option<Fid>, main: Option<Hid>, at: Place, calls: nat, backs: seq<nat>)

  datatype World = World(fibers: map<Fid, Fiber>, handles: map<Hid, Handle>, threads: map<Tid, Thread>,
                         lastId: nat, count: nat, created: nat, nextFid: Fid, nextHid: Hid, bad: bool)

  datatype Op =
    | StartThread(t: Tid)
    | GetThis(t: Tid)
    | Spawn(t: Tid, script: Script, captures: set<Hid>)
    | Copy(t: Tid, h: Hid, shared: bool)
    | Drop(t: Tid, h: Hid)
    | Release(t: Tid, h: Hid)
    | Reset(t: Tid, h: Hid, script: Script, captures: set<Hid>)
    | SwapIn(t: Tid, h: Hid)
    | Advance(t: Tid)
    | Exit(t: Tid)

  // ------------------------------------------------------------ references

  function Refs(hs: map<Hid, Handle>, f: Fid): set<Hid> {
    set h | h in hs && hs[h].target == f
  }

  /** Copying or creating a shared_ptr to a live fiber. */
  function AddHandle(w: World, owner: Owner, f: Fid): World {
    if f !in w.fibers then w.(bad := true)
    else w.(handles := w.handles[w.nextHid := Handle(owner, f)],
            nextHid := w.nextHid + 1,
            fibers := w.fibers[f := w.fibers[f].(rc := w.fibers[f].rc + 1)])
  }

  /** Moves the handles whose owner is `from`. */
  function Reown(hs: map<Hid, Handle>, from: Owner, to: Owner): (r: map<Hid, Handle>)
    ensures r.Keys == hs.Keys
  {
    map h | h in hs :: if hs[h].owner == from then hs[h].(owner := to) else hs[h]
  }

  function MoveSet(hs: map<Hid, Handle>, s: set<Hid>, to: Owner): (r: map<Hid, Handle>)
    ensures r.Keys == hs.Keys
  {
    map h | h in hs :: if h in s then hs[h].(owner := to) else hs[h]
  }

  /** ~Fiber on thread `t`, then the destruction of m_cb and of what it captured. */
  function Destroy(w: World, t: Tid, f: Fid): World
    requires f in w.fibers && t in w.threads
  {
    var o := w.fibers[f];
    var failed :=
      if o.sub then o.state !in {TERM, EXCEPT, INIT} else o.cb.Some? || o.state != EXEC;
    var th := w.threads[t];
    w.(fibers := w.fibers - {f},
       count := (w.count + U64 - 1) % U64,
       threads := if !o.sub && th.tFiber == Some(f) then w.threads[t := th.(tFiber := None)] else w.threads,
       handles := Reown(w.handles, Callback(f), Dying(t)),
       bad := w.bad || failed)
  }

  /** The destructor of one shared_ptr. */
  function ReleaseStep(w: World, t: Tid, h: Hid): World
    requires h in w.handles && t in w.threads
  {
    var f := w.handles[h].target;
    var w1 := w.(handles := w.handles - {h});
    if f !in w.fibers || w.fibers[f].rc == 0 then w1.(bad := true)
    else
      var o := w.fibers[f].(rc := w.fibers[f].rc - 1);
      var w2 := w1.(fibers := w.fibers[f := o]);
      if o.rc == 0 then Destroy(w2, t, f) else w2
  }

  // --------------------------------------------------------------- helpers

  function Here(w: World, t: Tid): Owner
    requires t in w.threads
  {
    match w.threads[t].at
    case InSub(f, _, _) => Local(f)
    case _ => Main(t)
  }

  /** Client code is what runs next on `t`. */
  predicate ClientRuns(w: World, t: Tid) {
    t in w.threads &&
    match w.threads[t].at
    case InMain => true
    case InSub(_, _, pc) => pc.Running?
    case Gone => false
  }

  /** No destructor is pending on `t`. */
  predicate Settled(w: World, t: Tid) {
    forall h | h in w.handles :: w.handles[h].owner != Dying(t)
  }

  predicate Owned(w: World, t: Tid, h: Hid)
    requires t in w.threads
  {
    h in w.handles && (w.handles[h].owner == Here(w, t) || w.handles[h].owner == Global)
  }

  /** Handles the running client code can copy: its own, shared ones and captured ones. */
  predicate Visible(w: World, t: Tid, h: Hid)
    requires t in w.threads
  {
    Owned(w, t, h) ||
    (h in w.handles && w.threads[t].at.InSub? && w.handles[h].owner == Callback(w.threads[t].at.f))
  }

  function SetPlace(w: World, t: Tid, at: Place): World
    requires t in w.threads
  {
    w.(threads := w.threads[t := w.threads[t].(at := at)])
  }

  function SetFiber(w: World, f: Fid, o: Fiber): World {
    w.(fibers := w.fibers[f := o])
  }

  function FreshFiber(id: nat, script: Script, rc: nat): Fiber {
    Fiber(id, true, INIT, Entry, Some(script), rc, None, script, [])
  }

  // ----------------------------------------------------------------- steps

  /** Fiber::GetThis called by client code. */
  function GetThisStep(w: World, t: Tid): World
    requires t in w.threads
  {
    var th := w.threads[t];
    match th.tFiber
    case Some(f) => AddHandle(w, Here(w, t), f)
    case None =>
      var f := w.nextFid;
      var o := Fiber(0, false, EXEC, Unset, None, 0, Some(t), Return, []);
      var w1 := w.(fibers := w.fibers[f := o], nextFid := f + 1, count := (w.count + 1) % U64,
                   threads := w.threads[t := th.(tFiber := Some(f), main := Some(w.nextHid))]);
      AddHandle(AddHandle(w1, ThreadFiber(t), f), Here(w, t), f)
  }

  /** Fiber::Fiber(cb), held by a shared_ptr of the client. */
  function SpawnStep(w: World, t: Tid, script: Script, captures: set<Hid>): World
    requires t in w.threads
  {
    var f := w.nextFid;
    var id := (w.lastId + 1) % U64;
    var w1 := w.(fibers := w.fibers[f := FreshFiber(id, script, 0)], nextFid := f + 1,
                 lastId := id, created := w.created + 1, count := (w.count + 1) % U64,
                 handles := MoveSet(w.handles, captures, Callback(f)));
    AddHandle(w1, Here(w, t), f)
  }

  /** Fiber::reset; the old callback and its captures are destroyed. */
  function ResetStep(w: World, t: Tid, h: Hid, script: Script, captures: set<Hid>): World
    requires h in w.handles
  {
    var f := w.handles[h].target;
    if f !in w.fibers || !w.fibers[f].sub || w.fibers[f].state !in {TERM, EXCEPT, INIT} then w.(bad := true)
    else
      var hs := Reown(w.handles, Callback(f), Dying(t));
      w.(handles := MoveSet(hs, captures, Callback(f)),
         fibers := w.fibers[f := FreshFiber(w.fibers[f].id, script, w.fibers[f].rc)])
  }

  /** Fiber::swapIn through the handle `h`: the thread continues in the fiber's context. */
  function SwapInStep(w: World, t: Tid, h: Hid): World
    requires t in w.threads && h in w.handles
  {
    var th := w.threads[t];
    var f := w.handles[h].target;
    if f !in w.fibers || w.fibers[f].state == EXEC then w.(bad := true)
    else if th.main.None? || th.main.value !in w.handles then w.(bad := true)
    else
      var m := w.handles[th.main.value].target;
      if m !in w.fibers then w.(bad := true)
      else
        var o := w.fibers[f];
        var w1 := w.(fibers := w.fibers[m := w.fibers[m].(ctx := CallSite(th.calls))]
                                       [f := o.(state := EXEC, home := Some(t), runs := o.runs + [[]])]);
        var th1 := th.(tFiber := Some(f), calls := th.calls + 1);
        match o.ctx
        case Entry =>
          w1.(threads := w.threads[t := th1.(at := InSub(f, h, Enter))])
        case AfterYield(cur, yielder, rest) =>
          w1.(threads := w.threads[t := th1.(at := InSub(f, h, Running(cur, rest)))],
              handles := MoveSet(w.handles, {yielder}, Dying(t)))
        case _ => w.(bad := true)  // AfterExit: the "never reach" assertion
  }

  /** Fiber::swapOut of the running fiber `f`, whose own continuation becomes `saved`. */
  function SwapOutStep(w: World, t: Tid, f: Fid, saved: Context): World
    requires t in w.threads
  {
    var th := w.threads[t];
    if f !in w.fibers || th.main.None? || th.main.value !in w.handles then w.(bad := true)
    else
      var m := w.handles[th.main.value].target;
      if m !in w.fibers || !w.fibers[m].ctx.CallSite? then w.(bad := true)
      else
        w.(fibers := w.fibers[f := w.fibers[f].(ctx := saved)],
           threads := w.threads[t := th.(tFiber := Some(m), at := InMain,
                                         backs := th.backs + [w.fibers[m].ctx.n])])
  }

  /** YieldToReady and YieldToHold on the stack of `f`, with `rest` still to run; `self` is
      the fiber GetThis gives. */
  function YieldStep(w: World, t: Tid, f: Fid, self: Fid, cur: Hid, ready: bool, rest: Script): World
    requires t in w.threads
  {
    var yielder := w.nextHid;
    var w1 := AddHandle(w, Cur(f), self);
    if self !in w1.fibers || w1.fibers[self].state != EXEC then w1.(bad := true)
    else
      var w2 := SetFiber(w1, self, w1.fibers[self].(state := if ready then READY else HOLD));
      SwapOutStep(w2, t, self, AfterYield(cur, yielder, rest))
  }

  function EmitRun(o: Fiber, x: int): Fiber {
    if o.runs == [] then o
    else o.(runs := o.runs[|o.runs| - 1 := o.runs[|o.runs| - 1] + [x]])
  }

  function TargetOf(w: World, h: Hid): Option<Fid> {
    if h in w.handles then Some(w.handles[h].target) else None
  }

  /** The fiber that the next statement of MainFunc, or of a Yield, works on: GetThis() reads
      t_fiber, later statements go through `cur` and the last one through raw_ptr. */
  function Self(w: World, t: Tid): Option<Fid>
    requires t in w.threads && w.threads[t].at.InSub?
  {
    match w.threads[t].at.pc
    case Enter => w.threads[t].tFiber
    case Running(_, rest) => if rest.Yield? then w.threads[t].tFiber else Some(w.threads[t].at.f)
    case Returned(cur) => TargetOf(w, cur)
    case Cleared(cur) => TargetOf(w, cur)
    case Caught(cur) => TargetOf(w, cur)
    case Finished(cur) => TargetOf(w, cur)
    case Leaving(raw) => Some(raw)
  }

  /** One step of MainFunc of the fiber running on `t`. */
  function AdvanceStep(w: World, t: Tid): World
    requires t in w.threads && w.threads[t].at.InSub?
  {
    var self := Self(w, t);
    if w.threads[t].at.f !in w.fibers || self.None? || self.value !in w.fibers then w.(bad := true)
    else MainFuncStep(w, t, self.value)
  }

  /** The statement itself, on the stack of the running fiber `f`. */
  function MainFuncStep(w: World, t: Tid, self: Fid): World
    requires t in w.threads && w.threads[t].at.InSub? && w.threads[t].at.f in w.fibers && self in w.fibers
  {
    var InSub(f, caller, pc) := w.threads[t].at;
    var o := w.fibers[self];
    match pc
    case Enter =>
      if o.cb.None? then w.(bad := true)
      else SetPlace(AddHandle(w, Cur(f), self), t, InSub(f, caller, Running(w.nextHid, o.cb.value)))
    case Running(cur, rest) => (
      match rest
      case Emit(x, next) =>
        SetPlace(SetFiber(w, f, EmitRun(w.fibers[f], x)), t, InSub(f, caller, Running(cur, next)))
      case Yield(ready, next) => YieldStep(w, t, f, self, cur, ready, next)
      case Return =>
        SetPlace(w.(handles := Reown(w.handles, Local(f), Dying(t))), t, InSub(f, caller, Returned(cur)))
      case Throw =>
        SetPlace(w.(handles := Reown(w.handles, Local(f), Dying(t))), t, InSub(f, caller, Caught(cur)))
      )
    case Returned(cur) =>
      SetPlace(SetFiber(w.(handles := Reown(w.handles, Callback(self), Dying(t))), self, o.(cb := None)),
               t, InSub(f, caller, Cleared(cur)))
    case Cleared(cur) =>
      SetPlace(SetFiber(w, self, o.(state := TERM)), t, InSub(f, caller, Finished(cur)))
    case Caught(cur) =>
      SetPlace(SetFiber(w, self, o.(state := EXCEPT)), t, InSub(f, caller, Finished(cur)))
    case Finished(cur) =>
      SetPlace(w.(handles := MoveSet(w.handles, {cur}, Dying(t))), t, InSub(f, caller, Leaving(self)))
    case Leaving(_) => SwapOutStep(w, t, self, AfterExit)
  }

  /** The end of a thread: its stack and its thread-locals go. */
  function ExitStep(w: World, t: Tid): World
    requires t in w.threads
  {
    var hs := Reown(Reown(w.handles, Main(t), Dying(t)), ThreadFiber(t), Dying(t));
    w.(handles := hs, threads := w.threads[t := w.threads[t].(at := Gone, main := None)])
  }

  // ------------------------------------------------------------ discipline

  /** What the client may do: the callers' side of the contract. */
  predicate Legal(w: World, op: Op) {
    match op
    case StartThread(t) => t !in w.threads
    case GetThis(t) => ClientRuns(w, t) && Settled(w, t) && |w.fibers| + 1 < U64
    case Spawn(t, _, captures) =>
      ClientRuns(w, t) && Settled(w, t) && w.created + 1 < U64 && |w.fibers| + 1 < U64
      && (forall c | c in captures :: Owned(w, t, c))
    case Copy(t, h, _) => ClientRuns(w, t) && Settled(w, t) && Visible(w, t, h)
    case Drop(t, h) => ClientRuns(w, t) && Settled(w, t) && Owned(w, t, h)
    case Release(t, h) => t in w.threads && h in w.handles && w.handles[h].owner == Dying(t)
    case Reset(t, h, _, captures) =>
      ClientRuns(w, t) && Settled(w, t) && Visible(w, t, h)
      && (forall c | c in captures :: Owned(w, t, c))
      && Resettable(w, t, w.handles[h].target)
    case SwapIn(t, h) =>
      t in w.threads && w.threads[t].at == InMain && w.threads[t].main.Some? && Settled(w, t)
      && h in w.handles && w.handles[h].owner == Main(t)
      && Resumable(w, t, w.handles[h].target)
    case Advance(t) => t in w.threads && w.threads[t].at.InSub? && Settled(w, t)
    case Exit(t) => t in w.threads && w.threads[t].at == InMain && Settled(w, t)
  }

  /** A fiber that has started stays on its thread. */
  predicate OnThread(o: Fiber, t: Tid) {
    o.home == None || o.home == Some(t)
  }

  predicate Resumable(w: World, t: Tid, f: Fid) {
    f in w.fibers ==> w.fibers[f].state in {INIT, READY, HOLD} && OnThread(w.fibers[f], t)
  }

  predicate Resettable(w: World, t: Tid, f: Fid) {
    f in w.fibers ==>
      w.fibers[f].sub && w.fibers[f].state in {TERM, EXCEPT, INIT} && OnThread(w.fibers[f], t)
  }

  function Step(w: World, op: Op): World
    requires Legal(w, op)
  {
    match op
    case StartThread(t) => w.(threads := w.threads[t := Thread(None, None, InMain, 0, [])])
    case GetThis(t) => GetThisStep(w, t)
    case Spawn(t, script, captures) => SpawnStep(w, t, script, captures)
    case Copy(t, h, shared) => AddHandle(w, if shared then Global else Here(w, t), w.handles[h].target)
    case Drop(t, h) => w.(handles := MoveSet(w.handles, {h}, Dying(t)))
    case Release(t, h) => ReleaseStep(w, t, h)
    case Reset(t, h, script, captures) => ResetStep(w, t, h, script, captures)
    case SwapIn(t, h) => SwapInStep(w, t, h)
    case Advance(t) => AdvanceStep(w, t)
    case Exit(t) => ExitStep(w, t)
  }

  const EMPTY: World := World(map[], map[], map[], 0, 0, 0, 0, 0, false)

  /** `ops` is a run of the machine from `w` that keeps to the client's contract. */
  predicate LegalRun(w: World, ops: seq<Op>)
    decreases |ops|
  {
    ops == [] || (Legal(w, ops[0]) && LegalRun(Step(w, ops[0]), ops[1..]))
  }

  function After(w: World, ops: seq<Op>): World
    requires LegalRun(w, ops)
    decreases |ops|
  {
    if ops == [] then w else After(Step(w, ops[0]), ops[1..])
  }
}
