/**
 What every legal run of the fiber machine keeps, and what follows from it.
 */
module FiberProofs {
  import opened Wrappers
  import opened FiberModel

  // ----------------------------------------------------- meaning of a script

  /** The actions of a callback between its yields. */
  function Blocks(s: Script): (bs: seq<seq<int>>)
    ensures |bs| == Yields(s) + 1
  {
    match s
    case Return => [[]]
    case Throw => [[]]
    case Emit(x, rest) => var bs := Blocks(rest); [[x] + bs[0]] + bs[1..]
    case Yield(_, rest) => [[]] + Blocks(rest)
  }

  function Yields(s: Script): nat {
    match s
    case Return => 0
    case Throw => 0
    case Emit(_, rest) => Yields(rest)
    case Yield(_, rest) => 1 + Yields(rest)
  }

  /** Of the yields of a callback, in order, whether they are to ready. */
  function Readies(s: Script): (r: seq<bool>)
    ensures |r| == Yields(s)
  {
    match s
    case Return => []
    case Throw => []
    case Emit(_, rest) => Readies(rest)
    case Yield(ready, rest) => [ready] + Readies(rest)
  }

  /** The uninterrupted run of a callback. */
  function Uninterrupted(s: Script): seq<int> {
    match s
    case Return => []
    case Throw => []
    case Emit(x, rest) => [x] + Uninterrupted(rest)
    case Yield(_, rest) => Uninterrupted(rest)
  }

  predicate EndsInThrow(s: Script) {
    match s
    case Return => false
    case Throw => true
    case Emit(_, rest) => EndsInThrow(rest)
    case Yield(_, rest) => EndsInThrow(rest)
  }

  function Concat(bs: seq<seq<int>>): seq<int> {
    if bs == [] then [] else bs[0] + Concat(bs[1..])
  }

  lemma {:induction false} BlocksConcat(s: Script)
    ensures Concat(Blocks(s)) == Uninterrupted(s)
  {
    match s
    case Return => assert Blocks(s)[1..] == [];
    case Throw => assert Blocks(s)[1..] == [];
    case Emit(x, rest) =>
      BlocksConcat(rest);
      var bs := Blocks(rest);
      assert Blocks(s)[1..] == bs[1..];
      assert [x] + bs[0] + Concat(bs[1..]) == [x] + (bs[0] + Concat(bs[1..]));
    case Yield(_, rest) =>
      BlocksConcat(rest);
      assert Blocks(s)[1..] == Blocks(rest);
  }

  /** The last run goes on with the first of the blocks still to come. */
  function Join(runs: seq<seq<int>>, bs: seq<seq<int>>): seq<seq<int>>
    requires runs != [] && bs != []
  {
    runs[..|runs| - 1] + [runs[|runs| - 1] + bs[0]] + bs[1..]
  }

  // ------------------------------------------------------------- invariant

  ghost predicate At(w: World, h: Hid, owner: Owner, f: Fid) {
    h in w.handles && w.handles[h] == Handle(owner, f)
  }

  /** Where the thread of `f` stands in MainFunc, when `f` has control. */
  ghost function PcAt(ths: map<Tid, Thread>, o: Fiber, f: Fid): Option<Pc> {
    if o.home.Some? && o.home.value in ths && ths[o.home.value].at.InSub? && ths[o.home.value].at.f == f
    then Some(ths[o.home.value].at.pc) else None
  }

  ghost function PcIn(w: World, f: Fid): Option<Pc>
    requires f in w.fibers
  {
    PcAt(w.threads, w.fibers[f], f)
  }

  /** The handles `cur` that stand on the stack of a fiber. */
  ghost function StackOf(o: Fiber, pc: Option<Pc>): set<Hid> {
    match pc
    case Some(Enter) => {}
    case Some(Leaving(_)) => {}
    case Some(p) => {p.cur}
    case None => if o.ctx.AfterYield? then {o.ctx.cur, o.ctx.yielder} else {}
  }

  /** The callback has begun and not ended: locals can live on its stack. */
  ghost predicate InCallback(o: Fiber, pc: Option<Pc>) {
    if pc.Some? then pc.value.Running? else o.ctx.AfterYield?
  }

  ghost predicate OwnerOk(w: World, h: Hid)
    requires h in w.handles
  {
    match w.handles[h].owner
    case Main(t) => t in w.threads && !w.threads[t].at.Gone?
    case Local(f) => f in w.fibers && InCallback(w.fibers[f], PcIn(w, f))
    case Cur(f) => f in w.fibers && w.handles[h].target == f && h in StackOf(w.fibers[f], PcIn(w, f))
    case Callback(f) => f in w.fibers && w.fibers[f].cb.Some?
    case ThreadFiber(t) => t in w.threads && w.threads[t].main == Some(h)
    case Global => true
    case Dying(t) => t in w.threads
  }

  ghost predicate HandleOk(w: World, h: Hid)
    requires h in w.handles
  {
    h < w.nextHid && w.handles[h].target in w.fibers && OwnerOk(w, h)
  }

  ghost predicate HandlesOk(w: World) {
    forall h | h in w.handles :: HandleOk(w, h)
  }

  ghost predicate StackOk(w: World, f: Fid)
    requires f in w.fibers
  {
    forall h | h in StackOf(w.fibers[f], PcIn(w, f)) :: At(w, h, Cur(f), f)
  }

  ghost predicate StacksOk(w: World) {
    forall f | f in w.fibers :: StackOk(w, f)
  }

  ghost predicate CountsOk(w: World) {
    forall f | f in w.fibers :: w.fibers[f].rc == |Refs(w.handles, f)|
  }

  ghost predicate MainOk(w: World, f: Fid)
    requires f in w.fibers
  {
    var o := w.fibers[f];
    && o.state == EXEC && o.cb.None? && o.id == 0 && !o.ctx.AfterYield?
    && o.home.Some? && o.home.value in w.threads
    && var th := w.threads[o.home.value];
      (th.at.Gone? || (th.main.Some? && At(w, th.main.value, ThreadFiber(o.home.value), f)))
  }

  /** A sub-fiber while control is elsewhere. */
  ghost predicate IdleOk(o: Fiber) {
    match o.state
    case INIT => o.ctx == Entry && o.cb == Some(o.script) && o.runs == []
    case HOLD => WaitingOk(o)
    case READY => WaitingOk(o)
    case TERM => o.ctx == AfterExit && EndedOk(o)
    case EXCEPT => o.ctx == AfterExit && EndedOk(o)
    case EXEC => false
  }

  /** From the n-th on, the yields of the script are these. */
  ghost predicate YieldsFrom(s: Script, n: nat, kinds: seq<bool>) {
    n <= Yields(s) && Readies(s)[n..] == kinds
  }

  ghost predicate WaitingOk(o: Fiber) {
    && o.ctx.AfterYield? && o.ctx.cur != o.ctx.yielder
    && o.home.Some? && o.cb.Some? && o.runs != []
    && Blocks(o.script) == o.runs + Blocks(o.ctx.rest)
    && YieldsFrom(o.script, |o.runs| - 1, [o.state == READY] + Readies(o.ctx.rest))
    && (EndsInThrow(o.script) <==> EndsInThrow(o.ctx.rest))
  }

  ghost predicate EndedOk(o: Fiber) {
    && o.runs == Blocks(o.script)
    && if EndsInThrow(o.script) then o.state == EXCEPT && o.cb.Some? else o.state == TERM && o.cb.None?
  }

  /** A sub-fiber whose thread is at `pc`. */
  ghost predicate ActiveOk(o: Fiber, pc: Pc) {
    && o.runs != []
    && match pc
       case Enter => o.state == EXEC && o.cb == Some(o.script) && Blocks(o.script) == Join(o.runs, Blocks(o.script))
       case Running(_, rest) =>
         && o.state == EXEC && o.cb.Some? && Blocks(o.script) == Join(o.runs, Blocks(rest))
         && YieldsFrom(o.script, |o.runs| - 1, Readies(rest))
         && (EndsInThrow(o.script) <==> EndsInThrow(rest))
       case Returned(_) => o.state == EXEC && o.cb.Some? && o.runs == Blocks(o.script) && !EndsInThrow(o.script)
       case Cleared(_) => o.state == EXEC && o.cb.None? && o.runs == Blocks(o.script) && !EndsInThrow(o.script)
       case Caught(_) => o.state == EXEC && o.cb.Some? && o.runs == Blocks(o.script) && EndsInThrow(o.script)
       case Finished(_) => EndedOk(o)
       case Leaving(_) => EndedOk(o)
  }

  ghost predicate SubOk(o: Fiber, pc: Option<Pc>, lastId: nat) {
    && 1 <= o.id <= lastId
    && if pc.Some? then ActiveOk(o, pc.value) else IdleOk(o)
  }

  ghost predicate FiberOk(w: World, f: Fid)
    requires f in w.fibers
  {
    && f < w.nextFid
    && if w.fibers[f].sub then SubOk(w.fibers[f], PcIn(w, f), w.lastId) else MainOk(w, f)
  }

  ghost predicate FibersOk(w: World) {
    forall f | f in w.fibers :: FiberOk(w, f)
  }

  ghost predicate IdsOk(w: World) {
    && w.lastId == w.created < U64
    && w.count == |w.fibers| < U64
    && DistinctIds(w.fibers)
  }

  ghost predicate DistinctIds(fs: map<Fid, Fiber>) {
    forall f, g | f in fs && g in fs && f != g && fs[f].sub && fs[g].sub :: fs[f].id != fs[g].id
  }

  function Upto(n: nat): (s: seq<nat>)
    ensures |s| == n && forall i | 0 <= i < n :: s[i] == i
  {
    seq(n, i requires 0 <= i < n => i)
  }

  ghost predicate ThreadOk(w: World, t: Tid)
    requires t in w.threads
  {
    var th := w.threads[t];
    if th.at.Gone? then th.main.None?
    else if th.main.None? then th.tFiber.None? && th.at.InMain? && th.calls == 0 && th.backs == []
    else
      && th.main.value in w.handles
      && w.handles[th.main.value].owner == ThreadFiber(t)
      && var m := w.handles[th.main.value].target;
      && m in w.fibers && !w.fibers[m].sub && w.fibers[m].home == Some(t)
      && match th.at
         case InMain => th.tFiber == Some(m) && th.backs == Upto(th.calls)
         case InSub(f, caller, pc) =>
           && (pc.Leaving? ==> pc.raw == f)
           && th.tFiber == Some(f) && f in w.fibers && w.fibers[f].sub && w.fibers[f].home == Some(t)
           && th.calls > 0 && w.fibers[m].ctx == CallSite(th.calls - 1) && th.backs == Upto(th.calls - 1)
           && At(w, caller, Main(t), f)
         case Gone => true
  }

  ghost predicate ThreadsOk(w: World) {
    forall t | t in w.threads :: ThreadOk(w, t)
  }

  ghost predicate Inv(w: World) {
    && !w.bad
    && HandlesOk(w) && StacksOk(w) && CountsOk(w)
    && FibersOk(w) && IdsOk(w) && ThreadsOk(w)
  }

  // ------------------------------------------------------ reference counting

  lemma RefsAdd(hs: map<Hid, Handle>, h: Hid, x: Handle, f: Fid)
    requires h !in hs
    ensures |Refs(hs[h := x], f)| == |Refs(hs, f)| + if x.target == f then 1 else 0
  {
    var hs1 := hs[h := x];
    if x.target == f {
      assert Refs(hs1, f) == Refs(hs, f) + {h};
    } else {
      assert Refs(hs1, f) == Refs(hs, f);
    }
  }

  lemma RefsRemove(hs: map<Hid, Handle>, h: Hid, f: Fid)
    requires h in hs
    ensures |Refs(hs - {h}, f)| == |Refs(hs, f)| - if hs[h].target == f then 1 else 0
  {
    if hs[h].target == f {
      assert Refs(hs - {h}, f) == Refs(hs, f) - {h};
    } else {
      assert Refs(hs - {h}, f) == Refs(hs, f);
    }
  }

  lemma RefsReown(hs: map<Hid, Handle>, hs1: map<Hid, Handle>, f: Fid)
    requires hs.Keys == hs1.Keys
    requires forall h | h in hs :: hs1[h].target == hs[h].target
    ensures Refs(hs1, f) == Refs(hs, f)
  {
  }

  lemma RefsPositive(hs: map<Hid, Handle>, h: Hid, g: Hid)
    requires h in hs && g in hs && hs[g].target == hs[h].target
    ensures |Refs(hs, hs[h].target)| >= if g == h then 1 else 2
  {
    var f := hs[h].target;
    assert {h, g} <= Refs(hs, f);
    assert |{h, g}| <= |Refs(hs, f)| by { Subset({h, g}, Refs(hs, f)); }
  }

  lemma Subset(a: set<Hid>, b: set<Hid>)
    requires a <= b
    ensures |a| <= |b|
  {
    if a != {} {
      var x :| x in a;
      Subset(a - {x}, b - {x});
    }
  }

  lemma CountsAfterMove(w: World, w1: World)
    requires CountsOk(w)
    requires w1.handles.Keys == w.handles.Keys
    requires forall h | h in w.handles :: w1.handles[h].target == w.handles[h].target
    requires forall f | f in w1.fibers :: f in w.fibers && w1.fibers[f].rc == w.fibers[f].rc
    ensures CountsOk(w1)
  {
    forall f | f in w1.fibers ensures w1.fibers[f].rc == |Refs(w1.handles, f)| {
      RefsReown(w.handles, w1.handles, f);
    }
  }

  lemma CountsAfterAdd(w: World, owner: Owner, f: Fid)
    requires CountsOk(w) && f in w.fibers && w.nextHid !in w.handles
    ensures CountsOk(AddHandle(w, owner, f))
  {
    var w1 := AddHandle(w, owner, f);
    forall g | g in w1.fibers ensures w1.fibers[g].rc == |Refs(w1.handles, g)| {
      RefsAdd(w.handles, w.nextHid, Handle(owner, f), g);
    }
  }

  // ----------------------------------------------------------------- frames

  /** Handles that a step of thread `t` on the fibers `touched` leaves alone. */
  ghost predicate Fixed(owner: Owner, t: Tid, touched: set<Fid>) {
    match owner
    case Main(u) => u != t
    case ThreadFiber(u) => u != t
    case Cur(f) => f !in touched
    case _ => false
  }

  /** A step of thread `t` that changes no fiber outside `touched`, except its count. */
  ghost predicate Framed(w: World, w1: World, t: Tid, touched: set<Fid>) {
    && (forall u | u in w.threads && u != t :: u in w1.threads && w1.threads[u] == w.threads[u])
    && (forall u | u in w1.threads && u != t :: u in w.threads)
    && (forall f | f in w.fibers && f !in touched ::
          f in w1.fibers && w1.fibers[f] == w.fibers[f].(rc := w1.fibers[f].rc))
    && (forall f | f in w1.fibers && f !in touched :: f in w.fibers)
    && (forall h | h in w.handles && Fixed(w.handles[h].owner, t, touched) ::
          h in w1.handles && w1.handles[h] == w.handles[h])
    && w.lastId <= w1.lastId && w.nextFid <= w1.nextFid && w.nextHid <= w1.nextHid
    && t in w1.threads
    && (t in w.threads && w.threads[t].at.Gone? ==> w1.threads[t].at.Gone?)
    && ((t in w.threads && w1.threads[t] == w.threads[t]) ||
        ((t in w.threads && w.threads[t].at.InSub? ==> w.threads[t].at.f in touched) &&
         (w1.threads[t].at.InSub? ==> w1.threads[t].at.f in touched)))
    && (t in w.threads && w.threads[t].main.Some? ==>
          w1.threads[t].at.Gone? ||
          (w1.threads[t].main == w.threads[t].main &&
           w.threads[t].main.value in w1.handles && w.threads[t].main.value in w.handles &&
           w1.handles[w.threads[t].main.value] == w.handles[w.threads[t].main.value]))
    && (forall u | u in w.threads && u != t :: Apart(w, u, touched))
  }

  /** Thread `u` uses none of the fibers. */
  ghost predicate Apart(w: World, u: Tid, touched: set<Fid>)
    requires u in w.threads
  {
    var th := w.threads[u];
    && (th.main.Some? && th.main.value in w.handles ==> w.handles[th.main.value].target !in touched)
    && (th.at.InSub? ==> th.at.f !in touched)
  }

  lemma FramePc(w: World, w1: World, t: Tid, touched: set<Fid>, f: Fid)
    requires Framed(w, w1, t, touched) && f in w.fibers && f !in touched
    ensures PcIn(w1, f) == PcIn(w, f)
    ensures StackOf(w1.fibers[f], PcIn(w1, f)) == StackOf(w.fibers[f], PcIn(w, f))
    ensures InCallback(w1.fibers[f], PcIn(w1, f)) == InCallback(w.fibers[f], PcIn(w, f))
  {
  }

  lemma FrameStack(w: World, w1: World, t: Tid, touched: set<Fid>, f: Fid)
    requires Framed(w, w1, t, touched) && f in w.fibers && f !in touched
    requires StackOk(w, f)
    ensures StackOk(w1, f)
  {
    FramePc(w, w1, t, touched, f);
  }

  lemma FrameFiber(w: World, w1: World, t: Tid, touched: set<Fid>, f: Fid)
    requires Framed(w, w1, t, touched) && f in w.fibers && f !in touched
    requires FiberOk(w, f)
    ensures FiberOk(w1, f)
  {
    FramePc(w, w1, t, touched, f);
  }

  lemma FrameThread(w: World, w1: World, t: Tid, touched: set<Fid>, u: Tid)
    requires Framed(w, w1, t, touched) && u in w.threads && u != t
    requires ThreadOk(w, u)
    ensures ThreadOk(w1, u)
  {
  }

  /** The owner of a handle stays good when it is neither a touched fiber nor `t` ending. */
  lemma FrameHandle(w: World, w1: World, t: Tid, touched: set<Fid>, h: Hid)
    requires Framed(w, w1, t, touched)
    requires h in w.handles && h in w1.handles && w1.handles[h] == w.handles[h]
    requires HandleOk(w, h)
    requires w.handles[h].target in w1.fibers
    requires match w.handles[h].owner
             case Main(u) => u == t ==> !w1.threads[t].at.Gone?
             case Local(f) => f !in touched
             case Cur(f) => f !in touched
             case Callback(f) => f !in touched
             case ThreadFiber(u) => u == t ==> t in w.threads && w1.threads[t].main == w.threads[t].main
             case _ => true
    ensures HandleOk(w1, h)
  {
    match w.handles[h].owner
    case Local(f) => FramePc(w, w1, t, touched, f);
    case Cur(f) => FramePc(w, w1, t, touched, f);
    case _ =>
  }

  // ------------------------------------------------- steps keep the invariant

  /** All that is left to show for a step: what it says of its own thread and fibers. */
  lemma FromFrame(w: World, w1: World, t: Tid, touched: set<Fid>)
    requires Inv(w) && !w1.bad
    requires Framed(w, w1, t, touched)
    requires forall h | h in w1.handles :: HandleOk(w1, h)
    requires forall f | f in touched && f in w1.fibers :: StackOk(w1, f) && FiberOk(w1, f)
    requires CountsOk(w1) && IdsOk(w1)
    requires ThreadOk(w1, t)
    ensures Inv(w1)
  {
    hide CountsOk;
    hide IdsOk;
    forall f | f in w1.fibers ensures StackOk(w1, f) && FiberOk(w1, f) {
      if f !in touched {
        FrameStack(w, w1, t, touched, f);
        FrameFiber(w, w1, t, touched, f);
      }
    }
    forall u | u in w1.threads ensures ThreadOk(w1, u) {
      if u != t {
        FrameThread(w, w1, t, touched, u);
      }
    }
  }

  lemma StartThreadFrame(w: World, w1: World, t: Tid)
    requires Legal(w, StartThread(t)) && w1 == Step(w, StartThread(t))
    ensures Framed(w, w1, t, {}) && ThreadOk(w1, t)
  {
  }

  lemma StartThreadHandle(w: World, w1: World, t: Tid, h: Hid)
    requires Legal(w, StartThread(t)) && w1 == Step(w, StartThread(t)) && Framed(w, w1, t, {})
    requires h in w.handles && HandleOk(w, h)
    ensures HandleOk(w1, h)
  {
    FrameHandle(w, w1, t, {}, h);
  }

  lemma StartThreadKeeps(w: World, t: Tid)
    requires Inv(w) && Legal(w, StartThread(t))
    ensures Inv(Step(w, StartThread(t)))
  {
    var w1 := Step(w, StartThread(t));
    hide CountsOk;
    hide StacksOk;
    hide FibersOk;
    CountsAfterMove(w, w1);
    StartThreadFrame(w, w1, t);
    hide Framed;
    hide ThreadOk;
    forall h | h in w1.handles ensures HandleOk(w1, h) {
      assert HandleOk(w, h);
      StartThreadHandle(w, w1, t, h);
    }
    FromFrame(w, w1, t, {});
  }

  ghost predicate ClientOwner(owner: Owner) {
    owner.Main? || owner.Local? || owner.Global? || owner.Callback? || owner.Dying?
  }

  /** A step that only creates handles of live fibers, moves client handles to their
      destructors or destroys such handles. */
  ghost predicate Quiet(w: World, w1: World, t: Tid) {
    && t in w.threads
    && w1 == w.(handles := w1.handles, fibers := w1.fibers, nextHid := w1.nextHid)
    && w.nextHid <= w1.nextHid
    && w1.fibers.Keys == w.fibers.Keys
    && (forall f | f in w.fibers :: w1.fibers[f] == w.fibers[f].(rc := w1.fibers[f].rc))
    && (forall h | h in w.handles && Kept(w, t, w.handles[h].owner) ::
          h in w1.handles && w1.handles[h] == w.handles[h])
    && (forall h | h in w1.handles && h in w.handles ::
          w1.handles[h] == w.handles[h] || w1.handles[h] == Handle(Dying(t), w.handles[h].target))
    && (forall h | h in w1.handles && h !in w.handles ::
          h < w1.nextHid && w1.handles[h].target in w.fibers && ClientRuns(w, t) &&
          (w1.handles[h].owner == Global || w1.handles[h].owner == Here(w, t)))
  }

  /** Handles a quiet step of `t` cannot move. */
  ghost predicate Kept(w: World, t: Tid, owner: Owner)
    requires t in w.threads
  {
    !ClientOwner(owner) || (owner.Main? && (owner.t != t || w.threads[t].at.InSub?))
  }

  lemma QuietFrame(w: World, w1: World, t: Tid)
    requires Quiet(w, w1, t) && ThreadOk(w, t)
    ensures Framed(w, w1, t, {})
  {
  }

  lemma QuietThread(w: World, w1: World, t: Tid)
    requires Quiet(w, w1, t) && ThreadOk(w, t)
    ensures ThreadOk(w1, t)
  {
  }

  lemma QuietHandle(w: World, w1: World, t: Tid, h: Hid)
    requires Quiet(w, w1, t) && Framed(w, w1, t, {}) && ThreadOk(w, t)
    requires h in w1.handles && (h in w.handles ==> HandleOk(w, h))
    ensures HandleOk(w1, h)
  {
    if h in w.handles && w1.handles[h] == w.handles[h] {
      FrameHandle(w, w1, t, {}, h);
    } else if h !in w.handles && w1.handles[h].owner.Local? {
      FramePc(w, w1, t, {}, w.threads[t].at.f);
    }
  }

  lemma QuietIds(w: World, w1: World, t: Tid)
    requires Quiet(w, w1, t) && IdsOk(w)
    ensures IdsOk(w1)
  {
    assert |w1.fibers| == |w1.fibers.Keys| == |w.fibers.Keys| == |w.fibers|;
  }

  lemma QuietKeeps(w: World, w1: World, t: Tid)
    requires Inv(w) && Quiet(w, w1, t) && CountsOk(w1)
    ensures Inv(w1)
  {
    assert ThreadOk(w, t);
    QuietFrame(w, w1, t);
    QuietThread(w, w1, t);
    QuietIds(w, w1, t);
    forall h | h in w1.handles ensures HandleOk(w1, h) {
      assert h in w.handles ==> HandleOk(w, h);
      QuietHandle(w, w1, t, h);
    }
    hide Quiet;
    hide Framed;
    FromFrame(w, w1, t, {});
  }

  lemma FreshHid(w: World)
    requires HandlesOk(w)
    ensures w.nextHid !in w.handles
  {
    forall h | h in w.handles ensures h != w.nextHid {
      assert HandleOk(w, h);
    }
  }

  /** A client's new handle of a live fiber. */
  lemma AddKeeps(w: World, t: Tid, owner: Owner, f: Fid)
    requires Inv(w) && ClientRuns(w, t) && f in w.fibers
    requires owner == Global || owner == Here(w, t)
    ensures Inv(AddHandle(w, owner, f))
  {
    hide FibersOk;
    hide ThreadsOk;
    hide StacksOk;
    hide IdsOk;
    FreshHid(w);
    hide HandlesOk;
    CountsAfterAdd(w, owner, f);
    hide CountsOk;
    AddIsQuiet(w, t, owner, f);
    hide Quiet;
    QuietKeeps(w, AddHandle(w, owner, f), t);
  }

  lemma AddIsQuiet(w: World, t: Tid, owner: Owner, f: Fid)
    requires ClientRuns(w, t) && f in w.fibers && w.nextHid !in w.handles
    requires owner == Global || owner == Here(w, t)
    ensures Quiet(w, AddHandle(w, owner, f), t)
  {
  }

  lemma CopyKeeps(w: World, t: Tid, h: Hid, shared: bool)
    requires Inv(w) && Legal(w, Copy(t, h, shared))
    ensures Inv(Step(w, Copy(t, h, shared)))
  {
    assert HandleOk(w, h);
    hide Inv;
    AddKeeps(w, t, if shared then Global else Here(w, t), w.handles[h].target);
  }

  lemma GetThisAgainKeeps(w: World, t: Tid)
    requires Inv(w) && Legal(w, GetThis(t)) && w.threads[t].tFiber.Some?
    ensures Inv(Step(w, GetThis(t)))
  {
    assert ThreadOk(w, t);
    hide Inv;
    AddKeeps(w, t, Here(w, t), w.threads[t].tFiber.value);
  }

  lemma DropIsQuiet(w: World, t: Tid, h: Hid)
    requires Legal(w, Drop(t, h))
    ensures Quiet(w, Step(w, Drop(t, h)), t)
    ensures CountsOk(w) ==> CountsOk(Step(w, Drop(t, h)))
  {
    if CountsOk(w) {
      CountsAfterMove(w, Step(w, Drop(t, h)));
      hide CountsOk;
    }
  }

  lemma DropKeeps(w: World, t: Tid, h: Hid)
    requires Inv(w) && Legal(w, Drop(t, h))
    ensures Inv(Step(w, Drop(t, h)))
  {
    hide Step, Quiet, CountsOk;
    DropIsQuiet(w, t, h);
    QuietKeeps(w, Step(w, Drop(t, h)), t);
  }

  // -------------------------------------------------- destroying references

  lemma CountsAfterRemove(w: World, w1: World, h: Hid)
    requires CountsOk(w) && h in w.handles
    requires w1.handles == w.handles - {h}
    requires forall f | f in w1.fibers :: f in w.fibers &&
               w1.fibers[f].rc == w.fibers[f].rc - if f == w.handles[h].target then 1 else 0
    ensures CountsOk(w1)
  {
    forall f | f in w1.fibers ensures w1.fibers[f].rc == |Refs(w1.handles, f)| {
      RefsRemove(w.handles, h, f);
    }
  }

  /** The handle being destroyed is the only one of its fiber. */
  lemma OnlyRef(w: World, h: Hid)
    requires CountsOk(w) && h in w.handles && w.handles[h].target in w.fibers
    ensures w.fibers[w.handles[h].target].rc >= 1
    ensures w.fibers[w.handles[h].target].rc == 1 ==>
              forall g | g in w.handles && w.handles[g].target == w.handles[h].target :: g == h
  {
    var f := w.handles[h].target;
    forall g | g in w.handles && w.handles[g].target == f
      ensures |Refs(w.handles, f)| >= if g == h then 1 else 2
    {
      RefsPositive(w.handles, h, g);
    }
  }

  lemma ReleaseIsQuiet(w: World, t: Tid, h: Hid)
    requires Legal(w, Release(t, h)) && w.handles[h].target in w.fibers
    requires w.fibers[w.handles[h].target].rc > 1
    ensures Quiet(w, Step(w, Release(t, h)), t)
  {
  }

  lemma ReleaseSharedKeeps(w: World, t: Tid, h: Hid)
    requires Inv(w) && Legal(w, Release(t, h))
    requires w.handles[h].target in w.fibers && w.fibers[w.handles[h].target].rc > 1
    ensures Inv(Step(w, Release(t, h)))
  {
    hide FibersOk;
    hide ThreadsOk;
    hide StacksOk;
    hide IdsOk;
    hide HandlesOk;
    var w1 := Step(w, Release(t, h));
    CountsAfterRemove(w, w1, h);
    hide CountsOk;
    ReleaseIsQuiet(w, t, h);
    hide Quiet;
    hide Step;
    QuietKeeps(w, w1, t);
  }

  lemma NoStack(w: World, h: Hid, f: Fid)
    requires f in w.fibers && StackOk(w, f)
    requires h in w.handles && w.handles[h].owner != Cur(f)
    requires forall g | g in w.handles && w.handles[g].target == f :: g == h
    ensures StackOf(w.fibers[f], PcIn(w, f)) == {}
  {
    assert forall g | g in StackOf(w.fibers[f], PcIn(w, f)) :: At(w, g, Cur(f), f);
  }

  /** A fiber with a single, dying, reference has ended or never started, and is no
      thread's main or running fiber: the destructor's assertion holds. */
  lemma LastRefIsIdle(w: World, t: Tid, h: Hid, f: Fid)
    requires Legal(w, Release(t, h)) && w.handles[h].target == f && f in w.fibers
    requires FiberOk(w, f) && StackOk(w, f)
    requires forall g | g in w.handles && w.handles[g].target == f :: g == h
    requires forall u | u in w.threads :: ThreadOk(w, u)
    ensures w.fibers[f].sub ==> w.fibers[f].state in {TERM, EXCEPT, INIT} && PcIn(w, f).None?
    ensures !w.fibers[f].sub ==> w.threads[w.fibers[f].home.value].at.Gone?
    ensures forall u | u in w.threads && !w.threads[u].at.Gone? :: w.threads[u].tFiber != Some(f)
    ensures forall u | u in w.threads :: Apart(w, u, {f})
    ensures StackOf(w.fibers[f], PcIn(w, f)) == {} && !InCallback(w.fibers[f], PcIn(w, f))
  {
    var o := w.fibers[f];
    forall u | u in w.threads
      ensures Apart(w, u, {f}) && (!w.threads[u].at.Gone? ==> w.threads[u].tFiber != Some(f))
    {
      assert ThreadOk(w, u);
    }
    if o.sub && o.home.Some? && o.home.value in w.threads {
      assert Apart(w, o.home.value, {f});
    }
    NoStack(w, h, f);
  }

  /** What destroying the last reference of `f` does to the rest of the world. */
  lemma DestroyFrame(w: World, w1: World, t: Tid, h: Hid, f: Fid)
    requires Legal(w, Release(t, h)) && w.handles[h].target == f && f in w.fibers && w.fibers[f].rc == 1
    requires w1 == Step(w, Release(t, h))
    requires forall u | u in w.threads :: Apart(w, u, {f})
    requires w.fibers[f].sub || w.threads[t].tFiber != Some(f) || w.threads[t].at.Gone?
    requires w.threads[t].main.Some? ==>
               w.threads[t].main.value in w.handles && w.handles[w.threads[t].main.value].owner == ThreadFiber(t)
    requires w.threads[t].main.None? ==> w.threads[t].tFiber.None? || w.threads[t].at.Gone?
    ensures Framed(w, w1, t, {f})
  {
  }

  /** Taking one off an unsigned counter that is not zero. */
  lemma WrapDown(c: nat)
    requires 0 < c < U64
    ensures (c + U64 - 1) % U64 == c - 1
  {
  }

  lemma WrapUp(c: nat)
    requires c + 1 < U64
    ensures (c + 1) % U64 == c + 1
  {
  }

  lemma FewerFibers(fs: map<Fid, Fiber>, fs1: map<Fid, Fiber>, f: Fid)
    requires f in fs && fs1 == fs[f := fs[f].(rc := 0)]
    ensures |fs| > 0 && |fs1 - {f}| == |fs| - 1
    ensures DistinctIds(fs) ==> DistinctIds(fs1 - {f})
  {
    assert fs1.Keys == fs.Keys;
    assert (fs1 - {f}).Keys == fs.Keys - {f};
    assert |fs1 - {f}| == |(fs1 - {f}).Keys| == |fs.Keys| - 1 == |fs| - 1;
    assert forall g | g in fs1 - {f} :: (fs1 - {f})[g] == fs[g];
  }

  lemma MoreFibers(fs: map<Fid, Fiber>, f: Fid, o: Fiber)
    requires f !in fs
    ensures |fs[f := o]| == |fs| + 1
    ensures DistinctIds(fs) && (o.sub ==> forall g | g in fs && fs[g].sub :: fs[g].id != o.id) ==>
              DistinctIds(fs[f := o])
  {
    assert fs[f := o].Keys == fs.Keys + {f};
    assert |fs[f := o]| == |fs[f := o].Keys| == |fs.Keys| + 1 == |fs| + 1;
  }

  lemma DestroyIds(w: World, w1: World, t: Tid, h: Hid, f: Fid)
    requires Legal(w, Release(t, h)) && w.handles[h].target == f && f in w.fibers && w.fibers[f].rc == 1
    requires w1 == Step(w, Release(t, h)) && IdsOk(w)
    ensures IdsOk(w1)
  {
    var fs := w.fibers[f := w.fibers[f].(rc := 0)];
    LastReleaseFibers(w, w1, t, h, f);
    hide Step, DistinctIds;
    FewerFibers(w.fibers, fs, f);
    WrapDown(w.count);
  }

  lemma LastReleaseFibers(w: World, w1: World, t: Tid, h: Hid, f: Fid)
    requires Legal(w, Release(t, h)) && w.handles[h].target == f && f in w.fibers && w.fibers[f].rc == 1
    requires w1 == Step(w, Release(t, h))
    ensures w1.fibers == w.fibers[f := w.fibers[f].(rc := 0)] - {f} && w1.count == (w.count + U64 - 1) % U64
    ensures w1.lastId == w.lastId && w1.created == w.created
  {
  }

  lemma DestroyHandle(w: World, w1: World, t: Tid, h: Hid, f: Fid, g: Hid)
    requires Legal(w, Release(t, h)) && w.handles[h].target == f && f in w.fibers && w.fibers[f].rc == 1
    requires w1 == Step(w, Release(t, h)) && Framed(w, w1, t, {f})
    requires g in w1.handles && HandleOk(w, g)
    requires w.handles[g].target != f
    requires StackOf(w.fibers[f], PcIn(w, f)) == {} && !InCallback(w.fibers[f], PcIn(w, f))
    ensures HandleOk(w1, g)
  {
    if w1.handles[g] == w.handles[g] {
      FrameHandle(w, w1, t, {f}, g);
    }
  }

  lemma DestroyCounts(w: World, w1: World, t: Tid, h: Hid, f: Fid)
    requires Legal(w, Release(t, h)) && w.handles[h].target == f && f in w.fibers && w.fibers[f].rc == 1
    requires w1 == Step(w, Release(t, h)) && CountsOk(w)
    ensures CountsOk(w1)
  {
    forall g | g in w1.fibers ensures w1.fibers[g].rc == |Refs(w1.handles, g)| {
      RefsRemove(w.handles, h, g);
      RefsReown(w.handles - {h}, w1.handles, g);
    }
  }

  lemma DestroyThread(w: World, w1: World, t: Tid, h: Hid, f: Fid)
    requires Legal(w, Release(t, h)) && w.handles[h].target == f && f in w.fibers && w.fibers[f].rc == 1
    requires w1 == Step(w, Release(t, h))
    requires ThreadOk(w, t) && Apart(w, t, {f})
    requires !w.threads[t].at.Gone? ==> w.threads[t].tFiber != Some(f)
    ensures ThreadOk(w1, t)
  {
  }

  /** The assertions of the destructor hold. */
  lemma DestroyAsserts(w: World, w1: World, t: Tid, h: Hid, f: Fid)
    requires Legal(w, Release(t, h)) && w.handles[h].target == f && f in w.fibers && w.fibers[f].rc == 1
    requires w1 == Step(w, Release(t, h)) && !w.bad
    requires if w.fibers[f].sub then w.fibers[f].state in {TERM, EXCEPT, INIT} else MainOk(w, f)
    ensures !w1.bad
  {
  }

  lemma ReleaseSetup(w: World, t: Tid, h: Hid)
    requires Inv(w) && Legal(w, Release(t, h)) && w.handles[h].target in w.fibers
    ensures t in w.threads && h in w.handles && ThreadOk(w, t)
    ensures FiberOk(w, w.handles[h].target) && StackOk(w, w.handles[h].target)
    ensures w.threads[t].main.Some? ==>
              w.threads[t].main.value in w.handles && w.handles[w.threads[t].main.value].owner == ThreadFiber(t)
    ensures w.threads[t].main.None? ==> w.threads[t].tFiber.None? || w.threads[t].at.Gone?
    ensures if w.fibers[w.handles[h].target].sub then true else MainOk(w, w.handles[h].target)
  {
    hide Step, CountsOk, IdsOk, HandlesOk, StackOk;
    assert ThreadOk(w, t);
    assert FiberOk(w, w.handles[h].target);
  }

  lemma ReleaseLastKeeps(w: World, t: Tid, h: Hid)
    requires Inv(w) && Legal(w, Release(t, h))
    requires w.handles[h].target in w.fibers && w.fibers[w.handles[h].target].rc == 1
    ensures Inv(Step(w, Release(t, h)))
  {
    hide Step, Legal, CountsOk, IdsOk, Framed, ThreadOk, FiberOk, StackOk, HandleOk, MainOk;
    ReleaseSetup(w, t, h);
    var f := w.handles[h].target;
    var w1 := Step(w, Release(t, h));
    OnlyRef(w, h);
    DestroyCounts(w, w1, t, h, f);
    DestroyIds(w, w1, t, h, f);
    LastRefIsIdle(w, t, h, f);
    DestroyFrame(w, w1, t, h, f);
    DestroyAsserts(w, w1, t, h, f);
    DestroyThread(w, w1, t, h, f);
    DestroyKeys(w, w1, t, h, f);
    forall g | g in w1.handles ensures HandleOk(w1, g) {
      assert HandleOk(w, g);
      DestroyHandle(w, w1, t, h, f, g);
    }
    FromFrame(w, w1, t, {f});
  }

  lemma DestroyKeys(w: World, w1: World, t: Tid, h: Hid, f: Fid)
    requires Legal(w, Release(t, h)) && w.handles[h].target == f && f in w.fibers && w.fibers[f].rc == 1
    requires w1 == Step(w, Release(t, h))
    ensures w1.handles.Keys == w.handles.Keys - {h} && f !in w1.fibers
  {
  }

  // ------------------------------------------------------ creating fibers

  lemma FreshFid(w: World)
    requires FibersOk(w)
    ensures w.nextFid !in w.fibers
  {
    forall f | f in w.fibers ensures f != w.nextFid {
      assert FiberOk(w, f);
    }
  }

  lemma NoRefs(w: World, f: Fid)
    requires HandlesOk(w) && f !in w.fibers
    ensures Refs(w.handles, f) == {}
  {
    forall h | h in w.handles ensures w.handles[h].target != f {
      assert HandleOk(w, h);
    }
  }

  /** The first GetThis of a thread creates its main fiber. */
  ghost predicate FirstGetThis(w: World, w1: World, t: Tid) {
    && Legal(w, GetThis(t)) && w.threads[t].tFiber.None?
    && w1 == Step(w, GetThis(t))
    && w.nextFid !in w.fibers && w.nextHid !in w.handles && w.nextHid + 1 !in w.handles
    && ThreadOk(w, t)
  }

  lemma FirstGetThisShape(w: World, w1: World, t: Tid)
    requires FirstGetThis(w, w1, t)
    ensures var o := Fiber(0, false, EXEC, Unset, None, 2, Some(t), Return, []);
            w1 == w.(fibers := w.fibers[w.nextFid := o], nextFid := w.nextFid + 1, count := (w.count + 1) % U64,
                     threads := w.threads[t := w.threads[t].(tFiber := Some(w.nextFid), main := Some(w.nextHid))],
                     handles := w.handles[w.nextHid := Handle(ThreadFiber(t), w.nextFid)]
                                         [w.nextHid + 1 := Handle(Main(t), w.nextFid)],
                     nextHid := w.nextHid + 2)
    ensures t in w.threads && w.threads[t].main.None? && w.threads[t].at.InMain?
  {
    hide ThreadOk, GetThisStep, Settled;
    FirstGetThisPlace(w, w1, t);
    MainFiberShape(w, t);
  }

  lemma MainFiberShape(w: World, t: Tid)
    requires t in w.threads && w.threads[t].tFiber.None? && w.threads[t].at.InMain?
    ensures var o := Fiber(0, false, EXEC, Unset, None, 2, Some(t), Return, []);
            GetThisStep(w, t) ==
            w.(fibers := w.fibers[w.nextFid := o], nextFid := w.nextFid + 1, count := (w.count + 1) % U64,
               threads := w.threads[t := w.threads[t].(tFiber := Some(w.nextFid), main := Some(w.nextHid))],
               handles := w.handles[w.nextHid := Handle(ThreadFiber(t), w.nextFid)]
                                   [w.nextHid + 1 := Handle(Main(t), w.nextFid)],
               nextHid := w.nextHid + 2)
  {
    hide AddHandle;
    var f := w.nextFid;
    var o := Fiber(0, false, EXEC, Unset, None, 0, Some(t), Return, []);
    var w2 := w.(fibers := w.fibers[f := o], nextFid := f + 1, count := (w.count + 1) % U64,
                 threads := w.threads[t := w.threads[t].(tFiber := Some(f), main := Some(w.nextHid))]);
    TwoHandles(w2, ThreadFiber(t), Main(t), f);
    assert w.fibers[f := o][f := o.(rc := 2)] == w.fibers[f := o.(rc := 2)];
  }

  lemma TwoHandles(w: World, a: Owner, b: Owner, f: Fid)
    requires f in w.fibers
    ensures AddHandle(AddHandle(w, a, f), b, f)
         == w.(handles := w.handles[w.nextHid := Handle(a, f)][w.nextHid + 1 := Handle(b, f)],
               nextHid := w.nextHid + 2,
               fibers := w.fibers[f := w.fibers[f].(rc := w.fibers[f].rc + 2)])
  {
  }

  lemma FirstGetThisPlace(w: World, w1: World, t: Tid)
    requires FirstGetThis(w, w1, t)
    ensures w.threads[t].main.None? && w.threads[t].at.InMain?
  {
    hide Step;
  }

  lemma FirstGetThisCounts(w: World, w1: World, t: Tid)
    requires FirstGetThis(w, w1, t) && CountsOk(w) && HandlesOk(w)
    ensures CountsOk(w1)
  {
    hide FirstGetThis, HandlesOk, Refs;
    FreshIds(w, w1, t);
    FirstGetThisShape(w, w1, t);
    var f := w.nextFid;
    NoRefs(w, f);
    var hs := w.handles[w.nextHid := Handle(ThreadFiber(t), f)];
    forall g | g in w1.fibers ensures w1.fibers[g].rc == |Refs(w1.handles, g)| {
      RefsAdd(w.handles, w.nextHid, Handle(ThreadFiber(t), f), g);
      RefsAdd(hs, w.nextHid + 1, Handle(Main(t), f), g);
    }
  }

  lemma FreshIds(w: World, w1: World, t: Tid)
    requires FirstGetThis(w, w1, t)
    ensures w.nextFid !in w.fibers && w.nextHid !in w.handles && w.nextHid + 1 !in w.handles
  {
  }

  lemma NewFiberIds(w: World, w1: World, o: Fiber)
    requires IdsOk(w) && w.nextFid !in w.fibers && |w.fibers| + 1 < U64
    requires w1.fibers == w.fibers[w.nextFid := o] && w1.count == (w.count + 1) % U64
    requires w1.lastId == w1.created < U64 && w.lastId <= w1.lastId
    requires o.sub ==> forall f | f in w.fibers && w.fibers[f].sub :: w.fibers[f].id != o.id
    ensures IdsOk(w1)
  {
    MoreFibers(w.fibers, w.nextFid, o);
    WrapUp(w.count);
  }

  lemma FirstGetThisLocal(w: World, w1: World, t: Tid)
    requires FirstGetThis(w, w1, t)
    ensures ThreadOk(w1, t) && FiberOk(w1, w.nextFid) && StackOk(w1, w.nextFid)
    ensures w1.bad == w.bad
  {
    hide Legal, Step;
    FirstGetThisShape(w, w1, t);
  }

  lemma FirstGetThisFrame(w: World, w1: World, t: Tid)
    requires FirstGetThis(w, w1, t) && ThreadsOk(w)
    ensures Framed(w, w1, t, {w.nextFid})
  {
    hide FirstGetThis, Legal, Step;
    FirstGetThisShape(w, w1, t);
    FreshIds(w, w1, t);
    SpawnApart(w);
  }

  lemma FirstGetThisHandle(w: World, w1: World, t: Tid, h: Hid)
    requires FirstGetThis(w, w1, t) && Framed(w, w1, t, {w.nextFid})
    requires h in w1.handles && (h in w.handles ==> HandleOk(w, h))
    ensures HandleOk(w1, h)
  {
    FirstGetThisShape(w, w1, t);
    if h in w.handles {
      FrameHandle(w, w1, t, {w.nextFid}, h);
    }
  }

  lemma FirstGetThisSetup(w: World, t: Tid)
    requires Inv(w) && Legal(w, GetThis(t)) && w.threads[t].tFiber.None?
    ensures FirstGetThis(w, Step(w, GetThis(t)), t)
  {
    hide Step, CountsOk, IdsOk;
    assert ThreadOk(w, t);
    FreshFid(w);
    FreshHids(w);
  }

  lemma FirstGetThisKeeps(w: World, t: Tid)
    requires Inv(w) && Legal(w, GetThis(t)) && w.threads[t].tFiber.None?
    ensures Inv(Step(w, GetThis(t)))
  {
    hide Step, FirstGetThis, CountsOk, IdsOk, ThreadOk, Framed, HandleOk, FiberOk, StackOk, Legal;
    FirstGetThisSetup(w, t);
    var w1 := Step(w, GetThis(t));
    FirstGetThisShape(w, w1, t);
    FirstGetThisCounts(w, w1, t);
    FirstGetThisIds(w, w1, t);
    FirstGetThisFrame(w, w1, t);
    FirstGetThisLocal(w, w1, t);
    forall h | h in w1.handles ensures HandleOk(w1, h) {
      assert h in w.handles ==> HandleOk(w, h);
      FirstGetThisHandle(w, w1, t, h);
    }
    FromFrame(w, w1, t, {w.nextFid});
  }

  lemma FirstGetThisIds(w: World, w1: World, t: Tid)
    requires FirstGetThis(w, w1, t) && IdsOk(w)
    ensures IdsOk(w1)
  {
    hide Step;
    FirstGetThisShape(w, w1, t);
    NewFiberIds(w, w1, w1.fibers[w.nextFid]);
  }

  lemma FreshHids(w: World)
    requires HandlesOk(w)
    ensures forall h | h >= w.nextHid :: h !in w.handles
  {
    forall h | h in w.handles ensures h < w.nextHid {
      assert HandleOk(w, h);
    }
  }

  ghost predicate Spawning(w: World, w1: World, t: Tid, script: Script, captures: set<Hid>) {
    && Legal(w, Spawn(t, script, captures))
    && w1 == Step(w, Spawn(t, script, captures))
    && w.nextFid !in w.fibers && w.nextHid !in w.handles
    && ThreadOk(w, t)
  }

  lemma SpawnShape(w: World, w1: World, t: Tid, script: Script, captures: set<Hid>)
    requires Spawning(w, w1, t, script, captures) && IdsOk(w)
    ensures w1 == w.(fibers := w.fibers[w.nextFid := FreshFiber(w.created + 1, script, 1)],
                     nextFid := w.nextFid + 1, count := (w.count + 1) % U64,
                     lastId := w.created + 1, created := w.created + 1,
                     handles := MoveSet(w.handles, captures, Callback(w.nextFid))
                                [w.nextHid := Handle(Here(w, t), w.nextFid)],
                     nextHid := w.nextHid + 1)
    ensures ClientRuns(w, t) && ThreadOk(w, t) && w.nextFid !in w.fibers && w.nextHid !in w.handles
    ensures w.lastId == w.created
    ensures forall c | c in captures :: Owned(w, t, c)
  {
  }

  lemma SpawnCounts(w: World, w1: World, t: Tid, script: Script, captures: set<Hid>)
    requires Spawning(w, w1, t, script, captures) && CountsOk(w) && HandlesOk(w) && IdsOk(w)
    ensures CountsOk(w1)
  {
    SpawnShape(w, w1, t, script, captures);
    var f := w.nextFid;
    NoRefs(w, f);
    var hs := MoveSet(w.handles, captures, Callback(f));
    forall g | g in w1.fibers ensures w1.fibers[g].rc == |Refs(w1.handles, g)| {
      RefsReown(w.handles, hs, g);
      RefsAdd(hs, w.nextHid, Handle(Here(w, t), f), g);
    }
  }

  lemma SpawnLocal(w: World, w1: World, t: Tid, script: Script, captures: set<Hid>)
    requires Spawning(w, w1, t, script, captures) && IdsOk(w)
    ensures ThreadOk(w1, t) && FiberOk(w1, w.nextFid) && StackOk(w1, w.nextFid)
    ensures w1.bad == w.bad
  {
    hide Spawning, IdsOk, Legal, Step;
    SpawnShape(w, w1, t, script, captures);
  }

  lemma SpawnFrame(w: World, w1: World, t: Tid, script: Script, captures: set<Hid>)
    requires Spawning(w, w1, t, script, captures) && ThreadsOk(w) && IdsOk(w)
    ensures Framed(w, w1, t, {w.nextFid})
  {
    hide Spawning, IdsOk, Legal, Step;
    SpawnShape(w, w1, t, script, captures);
    SpawnApart(w);
  }

  lemma SpawnApart(w: World)
    requires ThreadsOk(w) && w.nextFid !in w.fibers
    ensures forall u | u in w.threads :: Apart(w, u, {w.nextFid})
  {
    forall u | u in w.threads ensures Apart(w, u, {w.nextFid}) {
      assert ThreadOk(w, u);
    }
  }

  lemma SpawnHandle(w: World, w1: World, t: Tid, script: Script, captures: set<Hid>, h: Hid)
    requires Spawning(w, w1, t, script, captures) && Framed(w, w1, t, {w.nextFid}) && IdsOk(w)
    requires h in w1.handles && (h in w.handles ==> HandleOk(w, h))
    ensures HandleOk(w1, h)
  {
    SpawnShape(w, w1, t, script, captures);
    if h in w.handles && h !in captures {
      FrameHandle(w, w1, t, {w.nextFid}, h);
    } else if h == w.nextHid && w.threads[t].at.InSub? {
      FramePc(w, w1, t, {w.nextFid}, w.threads[t].at.f);
    }
  }

  lemma SpawnSetup(w: World, t: Tid, script: Script, captures: set<Hid>)
    requires Inv(w) && Legal(w, Spawn(t, script, captures))
    ensures Spawning(w, Step(w, Spawn(t, script, captures)), t, script, captures)
    ensures forall f | f in w.fibers && w.fibers[f].sub :: w.fibers[f].id != w.created + 1
    ensures |w.fibers| + 1 < U64 && w.created + 1 < U64
  {
    hide Step, CountsOk, StacksOk, DistinctIds;
    assert ThreadOk(w, t);
    FreshFid(w);
    FreshHid(w);
    forall f | f in w.fibers && w.fibers[f].sub ensures w.fibers[f].id != w.created + 1 {
      assert FiberOk(w, f);
    }
  }

  lemma SpawnKeeps(w: World, t: Tid, script: Script, captures: set<Hid>)
    requires Inv(w) && Legal(w, Spawn(t, script, captures))
    ensures Inv(Step(w, Spawn(t, script, captures)))
  {
    hide Step, Spawning, HandleOk, CountsOk, IdsOk, FiberOk, ThreadOk, StackOk, Framed;
    var w1 := Step(w, Spawn(t, script, captures));
    SpawnSetup(w, t, script, captures);
    SpawnShape(w, w1, t, script, captures);
    SpawnCounts(w, w1, t, script, captures);
    NewFiberIds(w, w1, w1.fibers[w.nextFid]);
    SpawnFrame(w, w1, t, script, captures);
    SpawnLocal(w, w1, t, script, captures);
    forall h | h in w1.handles ensures HandleOk(w1, h) {
      assert h in w.handles ==> HandleOk(w, h);
      SpawnHandle(w, w1, t, script, captures, h);
    }
    FromFrame(w, w1, t, {w.nextFid});
  }

  // ---------------------------------------------------- reset, swapIn, exit

  ghost predicate Resetting(w: World, w1: World, t: Tid, h: Hid, script: Script, captures: set<Hid>, f: Fid) {
    && Legal(w, Reset(t, h, script, captures))
    && w1 == Step(w, Reset(t, h, script, captures))
    && f == w.handles[h].target && f in w.fibers
  }

  lemma ResetShape(w: World, w1: World, t: Tid, h: Hid, script: Script, captures: set<Hid>, f: Fid)
    requires Resetting(w, w1, t, h, script, captures, f)
    ensures w1 == w.(fibers := w.fibers[f := FreshFiber(w.fibers[f].id, script, w.fibers[f].rc)],
                     handles := MoveSet(Reown(w.handles, Callback(f), Dying(t)), captures, Callback(f)))
    ensures f in w.fibers && ClientRuns(w, t) && Resettable(w, t, f)
    ensures forall c | c in captures :: Owned(w, t, c)
  {
  }

  /** A fiber that can be reset is no thread's main or running fiber. */
  lemma ResettableIsIdle(w: World, t: Tid, f: Fid)
    requires ClientRuns(w, t) && Resettable(w, t, f) && f in w.fibers && FiberOk(w, f) && ThreadsOk(w)
    ensures PcIn(w, f).None? && IdleOk(w.fibers[f])
    ensures forall u | u in w.threads :: Apart(w, u, {f})
  {
    assert ThreadOk(w, t);
    forall u | u in w.threads ensures Apart(w, u, {f}) {
      assert ThreadOk(w, u);
    }
  }

  lemma ResetLocal(w: World, w1: World, t: Tid, h: Hid, script: Script, captures: set<Hid>, f: Fid)
    requires Resetting(w, w1, t, h, script, captures, f) && ThreadsOk(w) && FiberOk(w, f)
    ensures ThreadOk(w1, t) && FiberOk(w1, f) && StackOk(w1, f)
    ensures w1.bad == w.bad
  {
    hide Resetting, Legal, Step;
    ResetShape(w, w1, t, h, script, captures, f);
    ResettableIsIdle(w, t, f);
    assert ThreadOk(w, t);
  }

  lemma ResetFrame(w: World, w1: World, t: Tid, h: Hid, script: Script, captures: set<Hid>, f: Fid)
    requires Resetting(w, w1, t, h, script, captures, f) && ThreadsOk(w) && FiberOk(w, f)
    ensures Framed(w, w1, t, {f})
  {
    hide Resetting, Legal, Step, FiberOk, IdleOk, Resettable;
    ResetShape(w, w1, t, h, script, captures, f);
    ResettableIsIdle(w, t, f);
    assert ThreadOk(w, t);
  }

  lemma ResetHandle(w: World, w1: World, t: Tid, h: Hid, script: Script, captures: set<Hid>, f: Fid, g: Hid)
    requires Resetting(w, w1, t, h, script, captures, f) && ThreadsOk(w) && FiberOk(w, f)
    requires Framed(w, w1, t, {f})
    requires g in w.handles && HandleOk(w, g)
    ensures g in w1.handles && HandleOk(w1, g)
  {
    ResetShape(w, w1, t, h, script, captures, f);
    ResettableIsIdle(w, t, f);
    if w1.handles[g] == w.handles[g] && w.handles[g].owner != Callback(f) {
      FrameHandle(w, w1, t, {f}, g);
    }
  }

  lemma ResetSetup(w: World, t: Tid, h: Hid, script: Script, captures: set<Hid>)
    requires Inv(w) && Legal(w, Reset(t, h, script, captures))
    ensures h in w.handles && w.handles[h].target in w.fibers && FiberOk(w, w.handles[h].target)
    ensures Resetting(w, Step(w, Reset(t, h, script, captures)), t, h, script, captures, w.handles[h].target)
  {
    hide Step, CountsOk, IdsOk, ThreadsOk, StacksOk;
    assert HandleOk(w, h);
  }

  lemma ResetKeeps(w: World, t: Tid, h: Hid, script: Script, captures: set<Hid>)
    requires Inv(w) && Legal(w, Reset(t, h, script, captures))
    ensures Inv(Step(w, Reset(t, h, script, captures)))
  {
    hide Step, Legal, Resetting, CountsOk, IdsOk, FiberOk, FibersOk, ThreadOk, ThreadsOk, HandleOk, HandlesOk, StackOk,
      StacksOk, Framed;
    ResetSetup(w, t, h, script, captures);
    var w1 := Step(w, Reset(t, h, script, captures));
    var f := w.handles[h].target;
    ResetCounts(w, w1, t, h, script, captures, f);
    ResetFrame(w, w1, t, h, script, captures, f);
    ResetLocal(w, w1, t, h, script, captures, f);
    ResetHandles(w, w1, t, h, script, captures, f);
    FromFrame(w, w1, t, {f});
  }

  lemma ResetCounts(w: World, w1: World, t: Tid, h: Hid, script: Script, captures: set<Hid>, f: Fid)
    requires Resetting(w, w1, t, h, script, captures, f) && CountsOk(w) && IdsOk(w)
    ensures CountsOk(w1) && IdsOk(w1)
  {
    ResetShape(w, w1, t, h, script, captures, f);
    hide Step;
    CountsAfterMove(w, w1);
    SameIds(w, w1);
  }

  lemma ResetHandles(w: World, w1: World, t: Tid, h: Hid, script: Script, captures: set<Hid>, f: Fid)
    requires Resetting(w, w1, t, h, script, captures, f) && ThreadsOk(w) && FiberOk(w, f)
    requires Framed(w, w1, t, {f}) && HandlesOk(w)
    ensures forall g | g in w1.handles :: HandleOk(w1, g)
  {
    hide Framed;
    hide ThreadsOk;
    hide FiberOk;
    assert w1.handles.Keys == w.handles.Keys by { ResetShape(w, w1, t, h, script, captures, f); }
    hide Step;
    hide Legal;
    forall g | g in w1.handles ensures HandleOk(w1, g) {
      assert HandleOk(w, g);
      ResetHandle(w, w1, t, h, script, captures, f, g);
    }
  }

  lemma SameIds(w: World, w1: World)
    requires IdsOk(w) && w1.fibers.Keys == w.fibers.Keys
    requires w1.lastId == w.lastId && w1.created == w.created && w1.count == w.count
    requires forall f | f in w.fibers :: w1.fibers[f].id == w.fibers[f].id && w1.fibers[f].sub == w.fibers[f].sub
    ensures IdsOk(w1)
  {
    assert |w1.fibers| == |w1.fibers.Keys| == |w.fibers.Keys| == |w.fibers|;
  }

  lemma JoinEmpty(runs: seq<seq<int>>, bs: seq<seq<int>>)
    requires bs != []
    ensures Join(runs + [[]], bs) == runs + bs
  {
    assert [] + bs[0] == bs[0];
    assert (runs + [[]])[..|runs|] == runs;
  }

  ghost predicate SwappingIn(w: World, w1: World, t: Tid, h: Hid, f: Fid, m: Fid) {
    && Legal(w, SwapIn(t, h)) && w1 == Step(w, SwapIn(t, h))
    && f == w.handles[h].target && f in w.fibers
    && ThreadOk(w, t) && FiberOk(w, f)
    && m == w.handles[w.threads[t].main.value].target && FiberOk(w, m)
  }

  ghost function Resumed(o: Fiber, t: Tid): Fiber {
    o.(state := EXEC, home := Some(t), runs := o.runs + [[]])
  }

  lemma SwapInShape(w: World, w1: World, t: Tid, h: Hid, f: Fid, m: Fid)
    requires SwappingIn(w, w1, t, h, f, m)
    ensures f in w.fibers && m in w.fibers && t in w.threads
    ensures f < w.nextFid && 1 <= w.fibers[f].id <= w.lastId
    ensures f != m && w.fibers[f].sub && PcIn(w, f).None? && IdleOk(w.fibers[f])
    ensures w.fibers[f].ctx.AfterYield? || w.fibers[f].ctx.Entry?
    ensures var o, th := w.fibers[f], w.threads[t];
            var pc := if o.ctx.Entry? then Enter else Running(o.ctx.cur, o.ctx.rest);
            w1 == w.(fibers := w.fibers[m := w.fibers[m].(ctx := CallSite(th.calls))][f := Resumed(o, t)],
                     threads := w.threads[t := th.(tFiber := Some(f), calls := th.calls + 1, at := InSub(f, h, pc))],
                     handles := if o.ctx.Entry? then w.handles else MoveSet(w.handles, {o.ctx.yielder}, Dying(t)))
  {
    assert PcIn(w, f).None?;
  }

  /** A waiting fiber has its two handles on its stack. */
  lemma WaitingStack(w: World, f: Fid)
    requires f in w.fibers && PcIn(w, f).None? && w.fibers[f].ctx.AfterYield? && StackOk(w, f)
    ensures At(w, w.fibers[f].ctx.cur, Cur(f), f) && At(w, w.fibers[f].ctx.yielder, Cur(f), f)
  {
    assert w.fibers[f].ctx.cur in StackOf(w.fibers[f], None);
    assert w.fibers[f].ctx.yielder in StackOf(w.fibers[f], None);
  }

  lemma SwapInShape2(w: World, w1: World, t: Tid, h: Hid, f: Fid, m: Fid)
    requires SwappingIn(w, w1, t, h, f, m) && StackOk(w, f)
    ensures forall g | g in w.handles :: g in w1.handles &&
              (w1.handles[g] == w.handles[g] ||
               (w.handles[g] == Handle(Cur(f), f) && w1.handles[g] == Handle(Dying(t), f)))
  {
    SwapInShape(w, w1, t, h, f, m);
    if w.fibers[f].ctx.AfterYield? {
      WaitingStack(w, f);
    }
  }

  lemma SwapInThread(w: World, w1: World, t: Tid, h: Hid, f: Fid, m: Fid)
    requires SwappingIn(w, w1, t, h, f, m) && StackOk(w, f)
    ensures ThreadOk(w1, t)
    ensures w1.bad == w.bad
  {
    SwapInShape(w, w1, t, h, f, m);
    SwapInShape2(w, w1, t, h, f, m);
  }

  lemma ResumedOk(o: Fiber, t: Tid, lastId: nat)
    requires IdleOk(o) && 1 <= o.id <= lastId
    requires o.ctx.Entry? || o.ctx.AfterYield?
    ensures SubOk(Resumed(o, t), Some(if o.ctx.Entry? then Enter else Running(o.ctx.cur, o.ctx.rest)), lastId)
  {
    hide Blocks, Join, Readies, YieldsFrom, Yields, EndsInThrow;
    if o.ctx.Entry? {
      JoinEmpty([], Blocks(o.script));
      assert o.runs + [[]] == [[]] && [] + Blocks(o.script) == Blocks(o.script);
    } else {
      JoinEmpty(o.runs, Blocks(o.ctx.rest));
      YieldsGoOn(o.script, |o.runs| - 1, o.state == READY, Readies(o.ctx.rest));
      assert |o.runs + [[]]| - 1 == |o.runs|;
    }
  }

  lemma YieldsGoOn(s: Script, n: nat, ready: bool, kinds: seq<bool>)
    requires YieldsFrom(s, n, [ready] + kinds)
    ensures YieldsFrom(s, n + 1, kinds)
  {
    assert |Readies(s)[n..]| == 1 + |kinds|;
    assert Readies(s)[n + 1..] == Readies(s)[n..][1..];
  }

  lemma SwapInFiber(w: World, w1: World, t: Tid, h: Hid, f: Fid, m: Fid)
    requires SwappingIn(w, w1, t, h, f, m)
    ensures FiberOk(w1, f)
  {
    hide SwappingIn, SubOk, IdleOk, Blocks;
    SwapInShape(w, w1, t, h, f, m);
    ResumedOk(w.fibers[f], t, w.lastId);
  }

  lemma SwapInStack(w: World, w1: World, t: Tid, h: Hid, f: Fid, m: Fid)
    requires SwappingIn(w, w1, t, h, f, m) && StackOk(w, f)
    ensures StackOk(w1, f)
  {
    SwapInShape(w, w1, t, h, f, m);
    if w.fibers[f].ctx.AfterYield? {
      WaitingStack(w, f);
    }
  }

  lemma SwapInMain(w: World, w1: World, t: Tid, h: Hid, f: Fid, m: Fid)
    requires SwappingIn(w, w1, t, h, f, m) && StackOk(w, f)
    ensures FiberOk(w1, m) && StackOk(w1, m)
  {
    SwapInShape(w, w1, t, h, f, m);
    SwapInShape2(w, w1, t, h, f, m);
  }

  lemma SwapInFrame(w: World, w1: World, t: Tid, h: Hid, f: Fid, m: Fid)
    requires SwappingIn(w, w1, t, h, f, m) && StackOk(w, f) && ThreadsOk(w)
    ensures Framed(w, w1, t, {f, m})
  {
    hide SwappingIn, StackOk, ThreadsOk, IdleOk, Legal, Step;
    SwapInShape(w, w1, t, h, f, m);
    SwapInShape2(w, w1, t, h, f, m);
    SwapInApart(w, w1, t, h, f, m);
    SwapInMainHandle(w, w1, t, h, f, m);
  }

  lemma SwapInMainHandle(w: World, w1: World, t: Tid, h: Hid, f: Fid, m: Fid)
    requires SwappingIn(w, w1, t, h, f, m)
    ensures w.threads[t].main.Some? && w.threads[t].main.value in w.handles && w.threads[t].at == InMain
    ensures w.handles[w.threads[t].main.value].owner == ThreadFiber(t)
  {
    hide Step;
  }

  lemma SwapInApart(w: World, w1: World, t: Tid, h: Hid, f: Fid, m: Fid)
    requires SwappingIn(w, w1, t, h, f, m) && ThreadsOk(w)
    ensures forall u | u in w.threads && u != t :: Apart(w, u, {f, m})
  {
    forall u | u in w.threads && u != t ensures Apart(w, u, {f, m}) {
      assert ThreadOk(w, u);
    }
  }

  lemma HandleTarget(w: World, g: Hid)
    requires g in w.handles && HandleOk(w, g)
    ensures w.handles[g].target in w.fibers
  {
  }

  lemma SwapInOwnHandle(w: World, w1: World, t: Tid, h: Hid, f: Fid, m: Fid, g: Hid)
    requires SwappingIn(w, w1, t, h, f, m) && StackOk(w, f)
    requires g in w.handles && HandleOk(w, g)
    requires w.handles[g].owner in {Local(f), Cur(f), Callback(f)}
    ensures g in w1.handles && HandleOk(w1, g)
  {
    hide Legal, Step, SwappingIn, StackOk, IdleOk;
    SwapInShape(w, w1, t, h, f, m);
    SwapInShape2(w, w1, t, h, f, m);
  }

  /** The main fiber owns no handles. */
  lemma SwapInMainOwnsNone(w: World, w1: World, t: Tid, h: Hid, f: Fid, m: Fid, g: Hid)
    requires SwappingIn(w, w1, t, h, f, m)
    requires g in w.handles && HandleOk(w, g)
    ensures w.handles[g].owner !in {Local(m), Cur(m), Callback(m)}
  {
    hide Step;
  }

  lemma SwapInHandle(w: World, w1: World, t: Tid, h: Hid, f: Fid, m: Fid, g: Hid)
    requires SwappingIn(w, w1, t, h, f, m) && Framed(w, w1, t, {f, m}) && StackOk(w, f)
    requires g in w.handles && HandleOk(w, g)
    ensures g in w1.handles && HandleOk(w1, g)
  {
    hide Legal, Step, SwappingIn, IdleOk, HandleOk, Framed, StackOk;
    HandleTarget(w, g);
    SwapInMainOwnsNone(w, w1, t, h, f, m, g);
    if w.handles[g].owner in {Local(f), Cur(f), Callback(f)} {
      SwapInOwnHandle(w, w1, t, h, f, m, g);
    } else {
      SwapInShape(w, w1, t, h, f, m);
      SwapInShape2(w, w1, t, h, f, m);
      FrameHandle(w, w1, t, {f, m}, g);
    }
  }

  lemma SwapInCounts(w: World, w1: World, t: Tid, h: Hid, f: Fid, m: Fid)
    requires SwappingIn(w, w1, t, h, f, m) && CountsOk(w) && IdsOk(w)
    ensures CountsOk(w1) && IdsOk(w1)
  {
    hide Step, SwappingIn, CountsOk, IdsOk;
    SwapInShape(w, w1, t, h, f, m);
    CountsAfterMove(w, w1);
    SameIds(w, w1);
  }

  lemma SwapInSetup(w: World, t: Tid, h: Hid)
    requires Inv(w) && Legal(w, SwapIn(t, h))
    ensures h in w.handles && w.handles[h].target in w.fibers && StackOk(w, w.handles[h].target)
    ensures w.threads[t].main.value in w.handles
    ensures SwappingIn(w, Step(w, SwapIn(t, h)), t, h, w.handles[h].target, w.handles[w.threads[t].main.value].target)
  {
    hide Step, CountsOk, IdsOk, StackOk;
    assert HandleOk(w, h) && ThreadOk(w, t);
    var f := w.handles[h].target;
    var m := w.handles[w.threads[t].main.value].target;
    assert FiberOk(w, f) && FiberOk(w, m);
  }

  lemma SwapInKeeps(w: World, t: Tid, h: Hid)
    requires Inv(w) && Legal(w, SwapIn(t, h))
    ensures Inv(Step(w, SwapIn(t, h)))
  {
    hide Step, CountsOk, IdsOk, FiberOk, FibersOk, ThreadOk, ThreadsOk, HandleOk, HandlesOk, StackOk, StacksOk, Framed,
      SwappingIn;
    SwapInSetup(w, t, h);
    var w1 := Step(w, SwapIn(t, h));
    var f := w.handles[h].target;
    var m := w.handles[w.threads[t].main.value].target;
    SwapInCounts(w, w1, t, h, f, m);
    SwapInThread(w, w1, t, h, f, m);
    SwapInFiber(w, w1, t, h, f, m);
    SwapInStack(w, w1, t, h, f, m);
    SwapInMain(w, w1, t, h, f, m);
    SwapInFrame(w, w1, t, h, f, m);
    SwapInHandles(w, w1, t, h, f, m);
    FromFrame(w, w1, t, {f, m});
  }

  lemma SwapInHandles(w: World, w1: World, t: Tid, h: Hid, f: Fid, m: Fid)
    requires SwappingIn(w, w1, t, h, f, m) && Framed(w, w1, t, {f, m}) && StackOk(w, f)
    requires HandlesOk(w)
    ensures forall g | g in w1.handles :: HandleOk(w1, g)
  {
    hide Framed;
    hide Legal;
    hide FiberOk;
    hide StackOk;
    hide ThreadOk;
    assert w1.handles.Keys == w.handles.Keys by { SwapInShape(w, w1, t, h, f, m); }
    hide Step;
    forall g | g in w1.handles ensures HandleOk(w1, g) {
      assert HandleOk(w, g);
      SwapInHandle(w, w1, t, h, f, m, g);
    }
  }

  lemma ExitHandle(w: World, w1: World, t: Tid, h: Hid)
    requires Legal(w, Exit(t)) && w1 == Step(w, Exit(t)) && Framed(w, w1, t, {})
    requires h in w.handles && HandleOk(w, h)
    ensures h in w1.handles && HandleOk(w1, h)
  {
    if w.handles[h].owner !in {Main(t), ThreadFiber(t)} {
      FrameHandle(w, w1, t, {}, h);
    }
  }

  lemma ExitLocal(w: World, w1: World, t: Tid)
    requires Legal(w, Exit(t)) && w1 == Step(w, Exit(t)) && ThreadOk(w, t)
    ensures ThreadOk(w1, t)
  {
  }

  lemma ExitFrame(w: World, w1: World, t: Tid)
    requires Legal(w, Exit(t)) && w1 == Step(w, Exit(t)) && ThreadOk(w, t)
    ensures Framed(w, w1, t, {})
  {
    hide ThreadOk;
  }

  lemma ExitMoves(w: World, t: Tid)
    requires Legal(w, Exit(t))
    ensures var w1 := Step(w, Exit(t));
            && t in w.threads && w1.handles.Keys == w.handles.Keys && w1.bad == w.bad && w1.fibers == w.fibers
            && w1.lastId == w.lastId && w1.created == w.created && w1.count == w.count
            && forall h | h in w.handles :: w1.handles[h].target == w.handles[h].target
  {
  }

  lemma ExitKeeps(w: World, t: Tid)
    requires Inv(w) && Legal(w, Exit(t))
    ensures Inv(Step(w, Exit(t)))
  {
    hide Step, Legal, CountsOk, IdsOk, Framed, ThreadOk, HandleOk;
    var w1 := Step(w, Exit(t));
    ExitMoves(w, t);
    assert ThreadOk(w, t);
    CountsAfterMove(w, w1);
    SameIds(w, w1);
    ExitFrame(w, w1, t);
    ExitLocal(w, w1, t);
    forall g | g in w1.handles ensures HandleOk(w1, g) {
      assert HandleOk(w, g);
      ExitHandle(w, w1, t, g);
    }
    FromFrame(w, w1, t, {});
  }

  // ------------------------------------------------- the fiber in control

  /** A step of `t` that concerns the fiber it is running, and its stack. */
  ghost predicate OnFiber(w: World, w1: World, t: Tid, f: Fid) {
    && t in w.threads && f in w.fibers && t in w1.threads && f in w1.fibers
    && w1 == w.(fibers := w.fibers[f := w1.fibers[f]], threads := w.threads[t := w1.threads[t]],
                handles := w1.handles, nextHid := w1.nextHid)
    && w.nextHid <= w1.nextHid
    && w.threads[t].at.InSub? && w.threads[t].at.f == f
    && (w1.threads[t].at.InMain? || (w1.threads[t].at.InSub? && w1.threads[t].at.f == f))
    && w1.threads[t].main == w.threads[t].main
    && w1.fibers[f].id == w.fibers[f].id && w1.fibers[f].sub == w.fibers[f].sub
    && w1.fibers[f].script == w.fibers[f].script && |w1.fibers[f].runs| == |w.fibers[f].runs|
    && (forall h | h in w.handles ::
          h in w1.handles &&
          (w1.handles[h] == w.handles[h] ||
           (w.handles[h].owner in {Local(f), Cur(f), Callback(f)} &&
            w1.handles[h] == Handle(Dying(t), w.handles[h].target))))
    && (forall h | h in w1.handles && h !in w.handles ::
          h < w1.nextHid && w1.handles[h] == Handle(Cur(f), f))
  }

  lemma OnFiberFrame(w: World, w1: World, t: Tid, f: Fid)
    requires OnFiber(w, w1, t, f) && ThreadsOk(w)
    ensures Framed(w, w1, t, {f})
  {
    assert ThreadOk(w, t);
    forall u | u in w.threads && u != t ensures Apart(w, u, {f}) {
      assert ThreadOk(w, u);
    }
  }

  lemma OnFiberHandle(w: World, w1: World, t: Tid, f: Fid, h: Hid)
    requires OnFiber(w, w1, t, f) && Framed(w, w1, t, {f})
    requires h in w1.handles && (h in w.handles ==> HandleOk(w, h))
    requires w1.handles[h].owner in {Local(f), Cur(f), Callback(f)} ==> OwnerOk(w1, h)
    ensures HandleOk(w1, h)
  {
    if h in w.handles && w1.handles[h] == w.handles[h] &&
       w.handles[h].owner !in {Local(f), Cur(f), Callback(f)} {
      FrameHandle(w, w1, t, {f}, h);
    }
  }

  lemma OnFiberIds(w: World, w1: World, t: Tid, f: Fid)
    requires IdsOk(w) && OnFiber(w, w1, t, f)
    ensures IdsOk(w1) && w1.bad == w.bad
  {
    SameIds(w, w1);
  }

  lemma OnFiberKeeps(w: World, w1: World, t: Tid, f: Fid)
    requires Inv(w) && OnFiber(w, w1, t, f)
    requires CountsOk(w1) && FiberOk(w1, f) && StackOk(w1, f) && ThreadOk(w1, t)
    requires forall h | h in w1.handles && w1.handles[h].owner in {Local(f), Cur(f), Callback(f)} :: OwnerOk(w1, h)
    ensures Inv(w1)
  {
    hide CountsOk, ThreadOk, FiberOk, StackOk, IdsOk, Framed, OnFiber, OwnerOk;
    OnFiberIds(w, w1, t, f);
    OnFiberFrame(w, w1, t, f);
    OnFiberHandles(w, w1, t, f);
    FromFrame(w, w1, t, {f});
  }

  lemma OnFiberHandles(w: World, w1: World, t: Tid, f: Fid)
    requires OnFiber(w, w1, t, f) && Framed(w, w1, t, {f}) && HandlesOk(w)
    requires forall h | h in w1.handles && w1.handles[h].owner in {Local(f), Cur(f), Callback(f)} :: OwnerOk(w1, h)
    ensures forall g | g in w1.handles :: HandleOk(w1, g)
  {
    hide OwnerOk;
    hide Framed;
    forall g | g in w1.handles ensures HandleOk(w1, g) {
      assert g in w.handles ==> HandleOk(w, g);
      OnFiberHandle(w, w1, t, f, g);
    }
  }

  lemma InControl(w: World, t: Tid)
    requires Inv(w) && t in w.threads && w.threads[t].at.InSub?
    ensures var f := w.threads[t].at.f;
            && f in w.fibers && w.fibers[f].sub && w.fibers[f].home == Some(t)
            && PcIn(w, f) == Some(w.threads[t].at.pc)
            && FiberOk(w, f) && StackOk(w, f) && ThreadOk(w, t)
            && (forall h | h in w.handles && w.handles[h].owner in {Local(f), Cur(f), Callback(f)} :: OwnerOk(w, h))
  {
    assert ThreadOk(w, t);
    var f := w.threads[t].at.f;
    assert FiberOk(w, f) && StackOk(w, f);
    forall h | h in w.handles ensures OwnerOk(w, h) {
      assert HandleOk(w, h);
    }
  }

  /** `t` runs `f`, at `pc`, and makes its next step. */
  ghost predicate Advancing(w: World, w1: World, t: Tid, f: Fid, caller: Hid, pc: Pc) {
    && Legal(w, Advance(t))
    && w.threads[t].at == InSub(f, caller, pc)
    && f in w.fibers && w1 == MainFuncStep(w, t, f) && w.fibers[f].sub && w.fibers[f].home == Some(t)
    && PcIn(w, f) == Some(pc)
    && FiberOk(w, f) && StackOk(w, f) && ThreadOk(w, t)
    && w.nextHid !in w.handles
    && (forall h | h in w.handles && w.handles[h].owner in {Local(f), Cur(f), Callback(f)} :: OwnerOk(w, h))
  }

  /** What has to be shown of a step besides the counts. */
  ghost predicate Advanced(w: World, w1: World, t: Tid, f: Fid) {
    && OnFiber(w, w1, t, f) && FiberOk(w1, f) && StackOk(w1, f) && ThreadOk(w1, t)
    && (forall h | h in w1.handles && w1.handles[h].owner in {Local(f), Cur(f), Callback(f)} :: OwnerOk(w1, h))
  }

  lemma CurOnStack(w: World, f: Fid, cur: Hid)
    requires f in w.fibers && StackOk(w, f) && cur in StackOf(w.fibers[f], PcIn(w, f))
    ensures At(w, cur, Cur(f), f)
  {
  }

  lemma EnterAdvances(w: World, w1: World, t: Tid, f: Fid, caller: Hid)
    requires Advancing(w, w1, t, f, caller, Enter)
    ensures Advanced(w, w1, t, f)
  {
    hide Legal;
  }

  lemma EmitJoin(runs: seq<seq<int>>, x: int, rest: Script)
    requires runs != []
    ensures var runs1 := runs[|runs| - 1 := runs[|runs| - 1] + [x]];
            Join(runs1, Blocks(rest)) == Join(runs, Blocks(Emit(x, rest)))
  {
    var bs := Blocks(rest);
    var last := runs[|runs| - 1];
    assert last + [x] + bs[0] == last + ([x] + bs[0]);
    assert Blocks(Emit(x, rest)) == [[x] + bs[0]] + bs[1..];
  }

  lemma EmitAdvances(w: World, w1: World, t: Tid, f: Fid, caller: Hid, cur: Hid, x: int, rest: Script)
    requires Advancing(w, w1, t, f, caller, Running(cur, Emit(x, rest)))
    ensures Advanced(w, w1, t, f)
  {
    hide Legal;
    EmitJoin(w.fibers[f].runs, x, rest);
    CurOnStack(w, f, cur);
  }

  lemma EndJoin(runs: seq<seq<int>>)
    requires runs != []
    ensures Join(runs, [[]]) == runs
  {
    assert runs[|runs| - 1] + [] == runs[|runs| - 1];
  }

  lemma ReturnAdvances(w: World, w1: World, t: Tid, f: Fid, caller: Hid, cur: Hid)
    requires Advancing(w, w1, t, f, caller, Running(cur, Return))
    ensures Advanced(w, w1, t, f)
  {
    hide Legal;
    EndJoin(w.fibers[f].runs);
    CurOnStack(w, f, cur);
  }

  lemma ThrowAdvances(w: World, w1: World, t: Tid, f: Fid, caller: Hid, cur: Hid)
    requires Advancing(w, w1, t, f, caller, Running(cur, Throw))
    ensures Advanced(w, w1, t, f)
  {
    hide Legal;
    EndJoin(w.fibers[f].runs);
    CurOnStack(w, f, cur);
  }

  lemma ReturnedAdvances(w: World, w1: World, t: Tid, f: Fid, caller: Hid, pc: Pc)
    requires Advancing(w, w1, t, f, caller, pc) && pc.Returned?
    ensures Advanced(w, w1, t, f)
  {
    hide Legal;
    CurOnStack(w, f, pc.cur);
  }

  lemma ClearedAdvances(w: World, w1: World, t: Tid, f: Fid, caller: Hid, pc: Pc)
    requires Advancing(w, w1, t, f, caller, pc) && pc.Cleared?
    ensures Advanced(w, w1, t, f)
  {
    hide Legal;
    CurOnStack(w, f, pc.cur);
  }

  lemma CaughtAdvances(w: World, w1: World, t: Tid, f: Fid, caller: Hid, pc: Pc)
    requires Advancing(w, w1, t, f, caller, pc) && pc.Caught?
    ensures Advanced(w, w1, t, f)
  {
    hide Legal;
    CurOnStack(w, f, pc.cur);
  }

  lemma FinishedAdvances(w: World, w1: World, t: Tid, f: Fid, caller: Hid, cur: Hid)
    requires Advancing(w, w1, t, f, caller, Finished(cur))
    ensures Advanced(w, w1, t, f)
  {
    hide Legal;
    CurOnStack(w, f, cur);
  }

  lemma LeavingAdvances(w: World, w1: World, t: Tid, f: Fid, caller: Hid, raw: Fid)
    requires Advancing(w, w1, t, f, caller, Leaving(raw))
    ensures Advanced(w, w1, t, f)
  {
    hide Legal;
  }

  lemma YieldJoin(runs: seq<seq<int>>, ready: bool, rest: Script)
    requires runs != []
    ensures Join(runs, Blocks(Yield(ready, rest))) == runs + Blocks(rest)
  {
    assert Blocks(Yield(ready, rest)) == [[]] + Blocks(rest);
    JoinEmptyBlock(runs, Blocks(rest));
  }

  lemma JoinEmptyBlock(runs: seq<seq<int>>, bs: seq<seq<int>>)
    requires runs != []
    ensures Join(runs, [[]] + bs) == runs + bs
  {
    assert runs[|runs| - 1] + [] == runs[|runs| - 1];
    assert ([[]] + bs)[1..] == bs;
    assert runs[..|runs| - 1] + [runs[|runs| - 1]] == runs;
  }

  ghost function Yielded(o: Fiber, cur: Hid, yielder: Hid, ready: bool, rest: Script): Fiber {
    o.(rc := o.rc + 1, state := if ready then READY else HOLD, ctx := AfterYield(cur, yielder, rest))
  }

  lemma YieldShape(w: World, w1: World, t: Tid, f: Fid, caller: Hid, cur: Hid, ready: bool, rest: Script)
    requires Advancing(w, w1, t, f, caller, Running(cur, Yield(ready, rest)))
    ensures var m := w.handles[w.threads[t].main.value].target;
            w1 == w.(fibers := w.fibers[f := Yielded(w.fibers[f], cur, w.nextHid, ready, rest)],
                     handles := w.handles[w.nextHid := Handle(Cur(f), f)], nextHid := w.nextHid + 1,
                     threads := w.threads[t := w.threads[t].(tFiber := Some(m), at := InMain,
                                                             backs := Upto(w.threads[t].calls))])
            && m != f
  {
    hide Blocks, Join, YieldsFrom, Readies, EndsInThrow, StackOk, OwnerOk, Legal;
    var n := w.threads[t].calls;
    assert Upto(n - 1) + [n - 1] == Upto(n);
  }

  lemma YieldWaits(o: Fiber, cur: Hid, yielder: Hid, ready: bool, rest: Script)
    requires ActiveOk(o, Running(cur, Yield(ready, rest))) && o.home.Some? && cur != yielder
    ensures IdleOk(Yielded(o, cur, yielder, ready, rest))
  {
    YieldJoin(o.runs, ready, rest);
  }

  lemma YieldAdvances(w: World, w1: World, t: Tid, f: Fid, caller: Hid, cur: Hid, ready: bool, rest: Script)
    requires Advancing(w, w1, t, f, caller, Running(cur, Yield(ready, rest)))
    ensures Advanced(w, w1, t, f)
  {
    hide MainFuncStep, IdleOk, ActiveOk, Legal, Blocks;
    CurOnStack(w, f, cur);
    YieldShape(w, w1, t, f, caller, cur, ready, rest);
    YieldWaits(w.fibers[f], cur, w.nextHid, ready, rest);
  }

  lemma AdvanceAdvances(w: World, w1: World, t: Tid, f: Fid, caller: Hid, pc: Pc)
    requires Advancing(w, w1, t, f, caller, pc)
    ensures Advanced(w, w1, t, f)
  {
    match pc
    case Enter => EnterAdvances(w, w1, t, f, caller);
    case Running(cur, Emit(x, next)) => EmitAdvances(w, w1, t, f, caller, cur, x, next);
    case Running(cur, Yield(ready, next)) => YieldAdvances(w, w1, t, f, caller, cur, ready, next);
    case Running(cur, Return) => ReturnAdvances(w, w1, t, f, caller, cur);
    case Running(cur, Throw) => ThrowAdvances(w, w1, t, f, caller, cur);
    case Returned(_) => ReturnedAdvances(w, w1, t, f, caller, pc);
    case Cleared(_) => ClearedAdvances(w, w1, t, f, caller, pc);
    case Caught(_) => CaughtAdvances(w, w1, t, f, caller, pc);
    case Finished(cur) => FinishedAdvances(w, w1, t, f, caller, cur);
    case Leaving(raw) => LeavingAdvances(w, w1, t, f, caller, raw);
  }

  /** Enter and Yield make one reference; the other steps keep every count. */
  lemma AdvanceCounts(w: World, w1: World, t: Tid, f: Fid, caller: Hid, pc: Pc)
    requires Advancing(w, w1, t, f, caller, pc) && CountsOk(w)
    requires Advanced(w, w1, t, f)
    ensures CountsOk(w1)
  {
    if pc.Enter? || (pc.Running? && pc.rest.Yield?) {
      NewCur(w, w1, t, f, caller, pc);
      hide Advancing, Advanced;
      forall g | g in w1.fibers ensures w1.fibers[g].rc == |Refs(w1.handles, g)| {
        RefsAdd(w.handles, w.nextHid, Handle(Cur(f), f), g);
      }
    } else {
      SameTargets(w, w1, t, f, caller, pc);
      hide Advancing, Advanced;
      CountsAfterMove(w, w1);
    }
  }

  lemma NewCur(w: World, w1: World, t: Tid, f: Fid, caller: Hid, pc: Pc)
    requires Advancing(w, w1, t, f, caller, pc) && OnFiber(w, w1, t, f)
    requires pc.Enter? || (pc.Running? && pc.rest.Yield?)
    ensures w.nextHid !in w.handles && w1.handles == w.handles[w.nextHid := Handle(Cur(f), f)]
    ensures forall g | g in w1.fibers :: g in w.fibers && w1.fibers[g].rc == w.fibers[g].rc + if g == f then 1 else 0
  {
  }

  lemma SameTargets(w: World, w1: World, t: Tid, f: Fid, caller: Hid, pc: Pc)
    requires Advancing(w, w1, t, f, caller, pc) && OnFiber(w, w1, t, f)
    requires !pc.Enter? && !(pc.Running? && pc.rest.Yield?)
    ensures w1.handles.Keys == w.handles.Keys
    ensures forall h | h in w.handles :: w1.handles[h].target == w.handles[h].target
    ensures forall g | g in w1.fibers :: g in w.fibers && w1.fibers[g].rc == w.fibers[g].rc
  {
  }

  /** t_fiber, `cur` and raw_ptr all point to the fiber in control. */
  lemma SelfIsInControl(w: World, t: Tid)
    requires Inv(w) && t in w.threads && w.threads[t].at.InSub?
    ensures Self(w, t) == Some(w.threads[t].at.f) && w.threads[t].at.f in w.fibers
  {
    hide Inv, FiberOk, StackOk;
    InControl(w, t);
    var pc := w.threads[t].at.pc;
    if pc.Returned? || pc.Cleared? || pc.Caught? || pc.Finished? {
      CurOnStack(w, w.threads[t].at.f, pc.cur);
    }
  }

  lemma AdvanceSetup(w: World, t: Tid)
    requires Inv(w) && Legal(w, Advance(t))
    ensures t in w.threads && w.threads[t].at.InSub?
    ensures Advancing(w, Step(w, Advance(t)), t, w.threads[t].at.f, w.threads[t].at.caller, w.threads[t].at.pc)
    ensures CountsOk(w)
  {
    hide Self, MainFuncStep, CountsOk, IdsOk, FiberOk, StackOk, ThreadOk, OwnerOk;
    InControl(w, t);
    SelfIsInControl(w, t);
    FreshHid(w);
  }

  lemma AdvanceKeeps(w: World, t: Tid)
    requires Inv(w) && Legal(w, Advance(t))
    ensures Inv(Step(w, Advance(t)))
  {
    hide Step, Legal, Inv, Advancing, CountsOk, OnFiber, FiberOk, StackOk, ThreadOk, OwnerOk;
    var w1 := Step(w, Advance(t));
    AdvanceSetup(w, t);
    var InSub(f, caller, pc) := w.threads[t].at;
    AdvanceAdvances(w, w1, t, f, caller, pc);
    AdvanceCounts(w, w1, t, f, caller, pc);
    OnFiberKeeps(w, w1, t, f);
  }

  lemma AdvanceIsOnFiber(w: World, t: Tid)
    requires Inv(w) && Legal(w, Advance(t))
    ensures w.threads[t].at.InSub? && OnFiber(w, Step(w, Advance(t)), t, w.threads[t].at.f)
  {
    hide Step, Legal, Inv, Advancing, OnFiber, FiberOk, StackOk, ThreadOk, OwnerOk;
    AdvanceSetup(w, t);
    var InSub(f, caller, pc) := w.threads[t].at;
    AdvanceAdvances(w, Step(w, Advance(t)), t, f, caller, pc);
  }

  // ------------------------------------------------------------ main results

  /** Every legal step keeps the invariant, `bad` included. */
  lemma StepKeeps(w: World, op: Op)
    requires Inv(w) && Legal(w, op)
    ensures Inv(Step(w, op))
  {
    match op
    case StartThread(t) => StartThreadKeeps(w, t);
    case GetThis(t) =>
      if w.threads[t].tFiber.Some? {
        GetThisAgainKeeps(w, t);
      } else {
        FirstGetThisKeeps(w, t);
      }
    case Spawn(t, script, captures) => SpawnKeeps(w, t, script, captures);
    case Copy(t, h, shared) => CopyKeeps(w, t, h, shared);
    case Drop(t, h) => DropKeeps(w, t, h);
    case Release(t, h) =>
      ReleaseTargetLives(w, h);
      if w.fibers[w.handles[h].target].rc == 1 {
        ReleaseLastKeeps(w, t, h);
      } else {
        ReleaseSharedKeeps(w, t, h);
      }
    case Reset(t, h, script, captures) => ResetKeeps(w, t, h, script, captures);
    case SwapIn(t, h) => SwapInKeeps(w, t, h);
    case Advance(t) => AdvanceKeeps(w, t);
    case Exit(t) => ExitKeeps(w, t);
  }

  lemma ReleaseTargetLives(w: World, h: Hid)
    requires Inv(w) && h in w.handles
    ensures w.handles[h].target in w.fibers && w.fibers[w.handles[h].target].rc >= 1
  {
    assert HandleOk(w, h);
    OnlyRef(w, h);
  }

  lemma {:induction false} RunKeeps(w: World, ops: seq<Op>)
    requires Inv(w) && LegalRun(w, ops)
    ensures Inv(After(w, ops))
    decreases |ops|
  {
    if ops != [] {
      StepKeeps(w, ops[0]);
      hide Inv;
      RunKeeps(Step(w, ops[0]), ops[1..]);
    }
  }

  lemma EmptyIsGood()
    ensures Inv(EMPTY)
  {
  }
}
