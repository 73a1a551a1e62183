/**
 One ConfigVar of src/config.h used by any number of threads at once.

 setValue compares and notifies under the read lock, drops it, and takes the write
 lock to store.  Every lock operation, comparison, notification, store and copy is a
 step of its own, so other threads can come in between.  The log lists what happened;
 the theorems are about it.  `same` is T's operator==.
 */
module ConfigVarRace {
  import opened Wrappers

  type Tid = nat  // a thread
  type Id = nat   // a listener id; s_fun_id is shared by all variables of one type,
                  // so any id may be handed out

  datatype Change = AddListener(id: Id) | DelListener(id: Id) | ClearListener

  datatype Call<V> = SetValue(v: V) | GetValue | Edit(change: Change)

  datatype Event<V> =
    | Started(t: Tid, was: V, next: V, ids: set<Id>)  // the values differ; notification begins
    | Told(t: Tid, id: Id, was: V, next: V)           // one listener called
    | Passed(t: Tid, next: V)                         // all of them called
    | Published(t: Tid, v: V)                        // m_val = v
    | Got(t: Tid, v: V)                              // getValue's copy
    | Edited(t: Tid, change: Change)

  /** Program points; `start` and `passed` are the indices of their own log entries. */
  datatype Pc<V> =
    | Idle
    | WantRead(v: V)
    | Compare(v: V)
    | Notify(v: V, start: nat, told: seq<Id>)
    | Unlock(v: V, passed: nat)
    | UnlockEqual
    | WantWrite(v: V, passed: nat)
    | Store(v: V, passed: nat)
    | Stored
    | GetWant
    | GetCopy
    | GetDone
    | EditWant(change: Change)
    | EditDo(change: Change)
    | EditDone

  datatype State<V> = State(val: V, cbs: set<Id>, readers: set<Tid>, writer: Option<Tid>,
                            pcs: map<Tid, Pc<V>>, log: seq<Event<V>>)

  // ------------------------------------------------------------------- steps

  /** The key after `after` in the map of listeners. */
  ghost function NextId(cbs: set<Id>, after: int): (r: Option<Id>)
    ensures r.None? ==> forall x | x in cbs :: x <= after
    ensures r.Some? ==> r.value in cbs && r.value > after && forall x | x in cbs && x > after :: r.value <= x
  {
    if forall x | x in cbs :: x <= after then None
    else
      var more := set x | x in cbs && x > after;
      assert exists y :: y in cbs && y > after;
      assert more != {} by {
        var y :| y in cbs && y > after;
        assert y in more;
      }
      HasLeast(more);
      assert forall y | y in cbs && y > after :: y in more;
      var x :| x in more && forall y | y in more :: x <= y;
      Some(x)
  }

  lemma HasLeast(s: set<nat>)
    requires s != {}
    ensures exists x :: x in s && forall y | y in s :: x <= y
  {
    var x :| x in s;
    var smaller := set y | y in s && y < x;
    if smaller == {} {
      assert forall y | y in s :: y < x ==> y in smaller;
    } else {
      assert x !in smaller;
      HasLeast(smaller);
      var z :| z in smaller && forall y | y in smaller :: z <= y;
      assert forall y | y in s :: y < x ==> y in smaller;
    }
  }

  function Changed(cbs: set<Id>, change: Change): set<Id> {
    match change
    case AddListener(id) => cbs + {id}
    case DelListener(id) => cbs - {id}
    case ClearListener => {}
  }

  function At<V>(s: State<V>, t: Tid): Pc<V> {
    if t in s.pcs then s.pcs[t] else Idle
  }

  function Goto<V>(s: State<V>, t: Tid, pc: Pc<V>): State<V> {
    s.(pcs := s.pcs[t := pc])
  }

  function Log<V>(s: State<V>, e: Event<V>): State<V> {
    s.(log := s.log + [e])
  }

  /** A thread begins a call. */
  function Begin<V>(s: State<V>, t: Tid, call: Call<V>): State<V>
    requires At(s, t).Idle?
  {
    Goto(s, t, match call
               case SetValue(v) => WantRead(v)
               case GetValue => GetWant
               case Edit(change) => EditWant(change))
  }

  predicate CanRead<V>(s: State<V>) {
    s.writer.None?
  }

  predicate CanWrite<V>(s: State<V>) {
    s.writer.None? && s.readers == {}
  }

  predicate Enabled<V>(s: State<V>, t: Tid) {
    match At(s, t)
    case Idle => false
    case WantRead(_) => CanRead(s)
    case GetWant => CanRead(s)
    case WantWrite(_, _) => CanWrite(s)
    case EditWant(_) => CanWrite(s)
    case _ => true
  }

  function Last(told: seq<Id>): int {
    if told == [] then -1 else told[|told| - 1]
  }

  ghost function Step<V>(s: State<V>, t: Tid, same: (V, V) -> bool): State<V>
    requires Enabled(s, t)
  {
    match At(s, t)
    case WantRead(v) => Goto(s.(readers := s.readers + {t}), t, Compare(v))
    case Compare(v) =>
      if same(v, s.val) then Goto(s, t, UnlockEqual)
      else Goto(Log(s, Started(t, s.val, v, s.cbs)), t, Notify(v, |s.log|, []))
    case Notify(v, start, told) => (
      match NextId(s.cbs, Last(told))
      case Some(id) => Goto(Log(s, Told(t, id, s.val, v)), t, Notify(v, start, told + [id]))
      case None => Goto(Log(s, Passed(t, v)), t, Unlock(v, |s.log|))
      )
    case UnlockEqual => Goto(s.(readers := s.readers - {t}), t, Idle)
    case Unlock(v, passed) => Goto(s.(readers := s.readers - {t}), t, WantWrite(v, passed))
    case WantWrite(v, passed) => Goto(s.(writer := Some(t)), t, Store(v, passed))
    case Store(v, _) => Goto(Log(s.(val := v), Published(t, v)), t, Stored)
    case Stored => Goto(s.(writer := None), t, Idle)
    case GetWant => Goto(s.(readers := s.readers + {t}), t, GetCopy)
    case GetCopy => Goto(Log(s, Got(t, s.val)), t, GetDone)
    case GetDone => Goto(s.(readers := s.readers - {t}), t, Idle)
    case EditWant(change) => Goto(s.(writer := Some(t)), t, EditDo(change))
    case EditDo(change) => Goto(Log(s.(cbs := Changed(s.cbs, change)), Edited(t, change)), t, EditDone)
    case EditDone => Goto(s.(writer := None), t, Idle)
  }

  /** One entry of a schedule: a thread begins a call, or goes on with the one it is in. */
  datatype Move<V> = BeginCall(t: Tid, call: Call<V>) | GoOn(t: Tid)

  predicate CanMove<V>(s: State<V>, m: Move<V>) {
    match m
    case BeginCall(t, _) => At(s, t).Idle?
    case GoOn(t) => Enabled(s, t)
  }

  ghost function Apply<V>(s: State<V>, m: Move<V>, same: (V, V) -> bool): State<V>
    requires CanMove(s, m)
  {
    match m
    case BeginCall(t, call) => Begin(s, t, call)
    case GoOn(t) => Step(s, t, same)
  }

  ghost predicate Interleaving<V>(s: State<V>, ms: seq<Move<V>>, same: (V, V) -> bool)
    decreases |ms|
  {
    ms == [] || (CanMove(s, ms[0]) && Interleaving(Apply(s, ms[0], same), ms[1..], same))
  }

  ghost function After<V>(s: State<V>, ms: seq<Move<V>>, same: (V, V) -> bool): State<V>
    requires Interleaving(s, ms, same)
    decreases |ms|
  {
    if ms == [] then s else After(Apply(s, ms[0], same), ms[1..], same)
  }

  function New<V>(default: V): State<V> {
    State(default, {}, {}, None, map[], [])
  }

  // ----------------------------------------------------- reading the log

  /** The value stored last. */
  function LastStored<V>(log: seq<Event<V>>, default: V): V
    decreases |log|
  {
    if log == [] then default
    else if log[|log| - 1].Published? then log[|log| - 1].v
    else LastStored(log[..|log| - 1], default)
  }

  /** The listeners registered. */
  function Registered<V>(log: seq<Event<V>>): set<Id>
    decreases |log|
  {
    if log == [] then {}
    else
      var before := Registered(log[..|log| - 1]);
      if log[|log| - 1].Edited? then Changed(before, log[|log| - 1].change) else before
  }

  /** The calls of listeners made by one thread. */
  function Calls<V>(t: Tid, log: seq<Event<V>>): seq<Event<V>>
    decreases |log|
  {
    if log == [] then []
    else
      var before := Calls(t, log[..|log| - 1]);
      if log[|log| - 1].Told? && log[|log| - 1].t == t then before + [log[|log| - 1]] else before
  }

  predicate Writes<V>(e: Event<V>) {
    e.Published? || e.Edited?
  }

  predicate Ascending(ids: seq<Id>) {
    forall i, j | 0 <= i < j < |ids| :: ids[i] < ids[j]
  }

  function Tells<V>(t: Tid, ids: seq<Id>, was: V, next: V): (r: seq<Event<V>>)
    ensures |r| == |ids|
  {
    seq(|ids|, i requires 0 <= i < |ids| => Told(t, ids[i], was, next))
  }

  /** The pass that began at `j` and had called `told` by `k`: one unchanging old value, and
      the variable neither written nor its listeners edited since it began. */
  ghost predicate PassFrom<V>(log: seq<Event<V>>, default: V, t: Tid, next: V, told: seq<Id>, j: int, k: int) {
    && 0 <= j < k <= |log|
    && log[j].Started? && log[j].t == t && log[j].next == next
    && log[j].was == LastStored(log[..j], default)
    && log[j].ids == Registered(log[..j])
    && Ascending(told)
    && Calls(t, log[j + 1..k]) == Tells(t, told, log[j].was, next)
    && (forall i | j < i < k :: !Writes(log[i]))
  }

  /** Passed at `k` ends a pass over exactly the listeners registered when it began. */
  ghost predicate PassOk<V>(log: seq<Event<V>>, default: V, k: int)
    requires 0 <= k < |log|
  {
    log[k].Passed? ==>
      exists j, told :: PassFrom(log, default, log[k].t, log[k].next, told, j, k) && log[j].ids == set x | x in told
  }

  /** Published at `k` was announced: its writer's pass ended before, and was not yet used. */
  ghost predicate PublishOk<V>(log: seq<Event<V>>, k: int)
    requires 0 <= k < |log|
  {
    log[k].Published? ==>
      exists p :: 0 <= p < k && log[p] == Passed(log[k].t, log[k].v) && Unused(log[..k], log[k].t, p)
  }

  ghost predicate Unused<V>(log: seq<Event<V>>, t: Tid, p: int) {
    forall i | 0 <= i < |log| && p < i :: !(log[i].Published? && log[i].t == t)
  }

  /** Got at `k` is the value stored last before it. */
  ghost predicate GotOk<V>(log: seq<Event<V>>, default: V, k: int)
    requires 0 <= k < |log|
  {
    log[k].Got? ==> log[k].v == LastStored(log[..k], default)
  }

  ghost predicate LogOk<V>(log: seq<Event<V>>, default: V) {
    forall k | 0 <= k < |log| :: PassOk(log, default, k) && PublishOk(log, k) && GotOk(log, default, k)
  }

  // --------------------------------------------------------------- invariant

  predicate Reads<V>(pc: Pc<V>) {
    pc.Compare? || pc.Notify? || pc.Unlock? || pc.UnlockEqual? || pc.GetCopy? || pc.GetDone?
  }

  predicate WritesNow<V>(pc: Pc<V>) {
    pc.Store? || pc.Stored? || pc.EditDo? || pc.EditDone?
  }

  ghost predicate LocksOk<V>(s: State<V>) {
    && (s.writer.Some? ==> s.readers == {})
    && (forall t: Tid :: t in s.readers <==> Reads(At(s, t)))
    && (forall t: Tid :: s.writer == Some(t) <==> WritesNow(At(s, t)))
  }

  ghost predicate PcOk<V>(s: State<V>, default: V, pc: Pc<V>, t: Tid) {
    match pc
    case Notify(v, start, told) =>
      && PassFrom(s.log, default, t, v, told, start, |s.log|)
      && s.log[start].was == s.val && s.log[start].ids == s.cbs
      && (forall x | x in told :: x in s.cbs)
      && (forall x | x in s.cbs && x <= Last(told) :: x in told)
    case Unlock(v, passed) => passed < |s.log| && s.log[passed] == Passed(t, v) && Unused(s.log, t, passed)
    case WantWrite(v, passed) => passed < |s.log| && s.log[passed] == Passed(t, v) && Unused(s.log, t, passed)
    case Store(v, passed) => passed < |s.log| && s.log[passed] == Passed(t, v) && Unused(s.log, t, passed)
    case _ => true
  }

  ghost predicate Inv<V>(s: State<V>, default: V) {
    && LocksOk(s)
    && s.val == LastStored(s.log, default)
    && s.cbs == Registered(s.log)
    && LogOk(s.log, default)
    && (forall t | t in s.pcs :: PcOk(s, default, s.pcs[t], t))
  }

  // ------------------------------------------------------ extending the log

  lemma LogGrows<V>(log: seq<Event<V>>, e: Event<V>, default: V)
    requires LogOk(log, default)
    requires var log1 := log + [e];
             PassOk(log1, default, |log|) && PublishOk(log1, |log|) && GotOk(log1, default, |log|)
    ensures LogOk(log + [e], default)
  {
    var log1 := log + [e];
    forall k | 0 <= k < |log1|
      ensures PassOk(log1, default, k) && PublishOk(log1, k) && GotOk(log1, default, k)
    {
      if k < |log| {
        assert PassOk(log, default, k) && PublishOk(log, k) && GotOk(log, default, k);
        assert log1[..k] == log[..k] && log1[k] == log[k];
        if log[k].Passed? {
          var j, told :| PassFrom(log, default, log[k].t, log[k].next, told, j, k) && log[j].ids == set x | x in told;
          PassStays(log, e, default, log[k].t, log[k].next, told, j, k);
        }
        if log[k].Published? {
          var p :| 0 <= p < k && log[p] == Passed(log[k].t, log[k].v) && Unused(log[..k], log[k].t, p);
          assert log1[p] == log[p];
        }
      }
    }
  }

  lemma PassStays<V>(log: seq<Event<V>>, e: Event<V>, default: V, t: Tid, next: V, told: seq<Id>, j: int, k: int)
    requires PassFrom(log, default, t, next, told, j, k)
    ensures PassFrom(log + [e], default, t, next, told, j, k)
  {
    var log1 := log + [e];
    assert log1[..j] == log[..j] && log1[j + 1..k] == log[j + 1..k];
    assert forall i | j <= i < k :: log1[i] == log[i];
  }

  /** A pass under way goes on past an event that is neither a write nor a call by `t`. */
  lemma PassGoesOn<V>(log: seq<Event<V>>, e: Event<V>, default: V, t: Tid, next: V, told: seq<Id>, j: int)
    requires PassFrom(log, default, t, next, told, j, |log|)
    requires !Writes(e) && !(e.Told? && e.t == t)
    ensures PassFrom(log + [e], default, t, next, told, j, |log| + 1)
  {
    PassStays(log, e, default, t, next, told, j, |log|);
    var log1 := log + [e];
    assert log1[j + 1..|log| + 1][..|log| - j - 1] == log1[j + 1..|log|];
  }

  /** ... and past a call of a further listener. */
  lemma PassTells<V>(log: seq<Event<V>>, id: Id, default: V, t: Tid, next: V, told: seq<Id>, j: int)
    requires PassFrom(log, default, t, next, told, j, |log|)
    requires id > Last(told)
    ensures PassFrom(log + [Told(t, id, log[j].was, next)], default, t, next, told + [id], j, |log| + 1)
  {
    var e := Told(t, id, log[j].was, next);
    PassStays(log, e, default, t, next, told, j, |log|);
    var log1 := log + [e];
    assert log1[j + 1..|log| + 1][..|log| - j - 1] == log1[j + 1..|log|];
    assert Tells(t, told + [id], log[j].was, next) == Tells(t, told, log[j].was, next) + [e];
  }

  lemma PassBegins<V>(log: seq<Event<V>>, default: V, t: Tid, next: V)
    ensures var e := Started(t, LastStored(log, default), next, Registered(log));
            PassFrom(log + [e], default, t, next, [], |log|, |log| + 1)
  {
    var log1 := log + [Started(t, LastStored(log, default), next, Registered(log))];
    assert log1[..|log|] == log;
    assert log1[|log| + 1..|log| + 1] == [];
  }

  lemma LogEnd<V>(log: seq<Event<V>>, e: Event<V>, default: V)
    ensures LastStored(log + [e], default) == if e.Published? then e.v else LastStored(log, default)
    ensures Registered(log + [e]) == if e.Edited? then Changed(Registered(log), e.change) else Registered(log)
  {
    assert (log + [e])[..|log|] == log;
  }

  /** Program points of other threads stay good when an event is logged. */
  lemma OtherPcOk<V>(s: State<V>, s1: State<V>, default: V, e: Event<V>, t: Tid, u: Tid)
    requires u in s.pcs && PcOk(s, default, s.pcs[u], u)
    requires e.t == t && t != u
    requires s1.log == s.log + [e]
    requires s.pcs[u].Notify? ==> !Writes(e) && s1.val == s.val && s1.cbs == s.cbs
    ensures PcOk(s1, default, s.pcs[u], u)
  {
    match s.pcs[u]
    case Notify(v, start, told) =>
      PassGoesOn(s.log, e, default, u, v, told, start);
    case _ =>
  }

  // ------------------------------------------------- steps keep the invariant

  /** A step that logs nothing and changes neither the value nor the listeners. */
  lemma SilentKeeps<V>(s: State<V>, s1: State<V>, default: V, t: Tid)
    requires Inv(s, default) && LocksOk(s1)
    requires s1.log == s.log && s1.val == s.val && s1.cbs == s.cbs
    requires t in s1.pcs && s1.pcs == s.pcs[t := s1.pcs[t]]
    requires PcOk(s1, default, s1.pcs[t], t)
    ensures Inv(s1, default)
  {
    forall u | u in s1.pcs ensures PcOk(s1, default, s1.pcs[u], u) {
      if u != t {
        assert PcOk(s, default, s.pcs[u], u);
      }
    }
  }

  /** A step that logs one event of `t`. */
  lemma LoggedKeeps<V>(s: State<V>, s1: State<V>, default: V, t: Tid, e: Event<V>)
    requires Inv(s, default) && LocksOk(s1)
    requires s1.log == s.log + [e] && e.t == t
    requires s1.val == (if e.Published? then e.v else s.val)
    requires s1.cbs == (if e.Edited? then Changed(s.cbs, e.change) else s.cbs)
    requires t in s1.pcs && s1.pcs == s.pcs[t := s1.pcs[t]]
    requires PcOk(s1, default, s1.pcs[t], t)
    requires PassOk(s1.log, default, |s.log|) && PublishOk(s1.log, |s.log|) && GotOk(s1.log, default, |s.log|)
    requires Writes(e) ==> s.readers == {}
    ensures Inv(s1, default)
  {
    LogEnd(s.log, e, default);
    LogGrows(s.log, e, default);
    hide LogOk;
    forall u | u in s1.pcs ensures PcOk(s1, default, s1.pcs[u], u) {
      if u != t {
        assert PcOk(s, default, s.pcs[u], u);
        assert At(s, u) == s.pcs[u];
        assert u in s.readers <==> Reads(At(s, u));
        OtherPcOk(s, s1, default, e, t, u);
      }
    }
  }

  lemma BeginKeeps<V>(s: State<V>, default: V, t: Tid, call: Call<V>)
    requires Inv(s, default) && At(s, t).Idle?
    ensures Inv(Begin(s, t, call), default)
  {
    var s1 := Begin(s, t, call);
    assert forall u: Tid | u != t :: At(s1, u) == At(s, u);
    SilentKeeps(s, s1, default, t);
  }

  /** Taking or dropping a lock keeps the lock rules. */
  lemma LocksAfter<V>(s: State<V>, t: Tid, same: (V, V) -> bool)
    requires LocksOk(s) && Enabled(s, t)
    ensures LocksOk(Step(s, t, same))
  {
    var s1 := Step(s, t, same);
    assert forall u: Tid | u != t :: At(s1, u) == At(s, u);
    assert t in s.readers <==> Reads(At(s, t));
    assert s.writer == Some(t) <==> WritesNow(At(s, t));
  }

  lemma CompareKeeps<V>(s: State<V>, default: V, t: Tid, same: (V, V) -> bool)
    requires Inv(s, default) && At(s, t).Compare?
    ensures Inv(Step(s, t, same), default)
  {
    LocksAfter(s, t, same);
    var s1 := Step(s, t, same);
    var v := At(s, t).v;
    if same(v, s.val) {
      SilentKeeps(s, s1, default, t);
    } else {
      PassBegins(s.log, default, t, v);
      LoggedKeeps(s, s1, default, t, Started(t, s.val, v, s.cbs));
    }
  }

  lemma TellKeeps<V>(s: State<V>, default: V, t: Tid, same: (V, V) -> bool)
    requires Inv(s, default) && At(s, t).Notify? && NextId(s.cbs, Last(At(s, t).told)).Some?
    ensures Inv(Step(s, t, same), default)
  {
    hide LocksOk;
    LocksAfter(s, t, same);
    var s1 := Step(s, t, same);
    var Notify(v, start, told) := At(s, t);
    assert PcOk(s, default, s.pcs[t], t);
    var id := NextId(s.cbs, Last(told)).value;
    PassTells(s.log, id, default, t, v, told, start);
    assert forall x | x in told + [id] :: x in told || x == id;
    LoggedKeeps(s, s1, default, t, Told(t, id, s.val, v));
  }

  lemma PassKeeps<V>(s: State<V>, default: V, t: Tid, same: (V, V) -> bool)
    requires Inv(s, default) && At(s, t).Notify? && NextId(s.cbs, Last(At(s, t).told)).None?
    ensures Inv(Step(s, t, same), default)
  {
    LocksAfter(s, t, same);
    var s1 := Step(s, t, same);
    var Notify(v, start, told) := At(s, t);
    assert PcOk(s, default, s.pcs[t], t);
    var e := Passed(t, v);
    PassStays(s.log, e, default, t, v, told, start, |s.log|);
    assert s1.log[|s.log|] == e;
    assert s.cbs == set x | x in told;
    LoggedKeeps(s, s1, default, t, e);
  }

  lemma StoreKeeps<V>(s: State<V>, default: V, t: Tid, same: (V, V) -> bool)
    requires Inv(s, default) && At(s, t).Store?
    ensures Inv(Step(s, t, same), default)
  {
    LocksAfter(s, t, same);
    var s1 := Step(s, t, same);
    assert PcOk(s, default, s.pcs[t], t);
    assert WritesNow(At(s, t));
    var e := Published(t, At(s, t).v);
    var p := At(s, t).passed;
    assert s1.log[..|s.log|] == s.log && s1.log[p] == s.log[p];
    LoggedKeeps(s, s1, default, t, e);
  }

  lemma CopyKeeps<V>(s: State<V>, default: V, t: Tid, same: (V, V) -> bool)
    requires Inv(s, default) && At(s, t).GetCopy?
    ensures Inv(Step(s, t, same), default)
  {
    LocksAfter(s, t, same);
    var s1 := Step(s, t, same);
    assert s1.log[..|s.log|] == s.log;
    LoggedKeeps(s, s1, default, t, Got(t, s.val));
  }

  lemma EditKeeps<V>(s: State<V>, default: V, t: Tid, same: (V, V) -> bool)
    requires Inv(s, default) && At(s, t).EditDo?
    ensures Inv(Step(s, t, same), default)
  {
    LocksAfter(s, t, same);
    var s1 := Step(s, t, same);
    assert WritesNow(At(s, t));
    LoggedKeeps(s, s1, default, t, Edited(t, At(s, t).change));
  }

  lemma LockStepKeeps<V>(s: State<V>, default: V, t: Tid, same: (V, V) -> bool)
    requires Inv(s, default) && Enabled(s, t)
    requires var pc := At(s, t); !pc.Compare? && !pc.Notify? && !pc.Store? && !pc.GetCopy? && !pc.EditDo?
    ensures Inv(Step(s, t, same), default)
  {
    LocksAfter(s, t, same);
    assert PcOk(s, default, s.pcs[t], t);
    SilentKeeps(s, Step(s, t, same), default, t);
  }

  lemma MoveKeeps<V>(s: State<V>, default: V, m: Move<V>, same: (V, V) -> bool)
    requires Inv(s, default) && CanMove(s, m)
    ensures Inv(Apply(s, m, same), default)
  {
    hide Inv;
    if m.BeginCall? {
      BeginKeeps(s, default, m.t, m.call);
    } else {
      match At(s, m.t)
      case Compare(_) => CompareKeeps(s, default, m.t, same);
      case Notify(_, _, told) =>
        if NextId(s.cbs, Last(told)).Some? {
          TellKeeps(s, default, m.t, same);
        } else {
          PassKeeps(s, default, m.t, same);
        }
      case Store(_, _) => StoreKeeps(s, default, m.t, same);
      case GetCopy => CopyKeeps(s, default, m.t, same);
      case EditDo(_) => EditKeeps(s, default, m.t, same);
      case _ => LockStepKeeps(s, default, m.t, same);
    }
  }

  lemma {:induction false} InterleavingKeeps<V>(s: State<V>, default: V, ms: seq<Move<V>>, same: (V, V) -> bool)
    requires Inv(s, default) && Interleaving(s, ms, same)
    ensures Inv(After(s, ms, same), default)
    decreases |ms|
  {
    if ms != [] {
      MoveKeeps(s, default, ms[0], same);
      hide Inv;
      InterleavingKeeps(Apply(s, ms[0], same), default, ms[1..], same);
    }
  }

  // ------------------------------------------------------------ main results

  /** The log of an interleaving from a new variable. */
  ghost function LogOf<V>(default: V, ms: seq<Move<V>>, same: (V, V) -> bool): seq<Event<V>>
    requires Interleaving(New(default), ms, same)
  {
    After(New(default), ms, same).log
  }

  lemma Reachable<V>(default: V, ms: seq<Move<V>>, same: (V, V) -> bool)
    requires Interleaving(New(default), ms, same)
    ensures Inv(After(New(default), ms, same), default)
  {
    assert forall t: Tid :: At(New(default), t) == Idle;
    InterleavingKeeps(New(default), default, ms, same);
  }

  /** A completed notification pass called exactly the listeners registered when it began,
      each once, in order of their ids, all with the value the variable had then, and
      neither the value nor the listeners changed before it ended. */
  lemma PassesAreExact<V>(default: V, ms: seq<Move<V>>, same: (V, V) -> bool, k: nat)
    requires Interleaving(New(default), ms, same)
    requires k < |LogOf(default, ms, same)| && LogOf(default, ms, same)[k].Passed?
    ensures var log := LogOf(default, ms, same);
            exists j, ids :: PassFrom(log, default, log[k].t, log[k].next, ids, j, k)
                             && (set x | x in ids) == Registered(log[..j])
  {
    Reachable(default, ms, same);
    var log := LogOf(default, ms, same);
    assert PassOk(log, default, k);
    var j, told :| PassFrom(log, default, log[k].t, log[k].next, told, j, k) && log[j].ids == set x | x in told;
  }

  /** A value is stored only after its own writer's completed pass, used once. */
  lemma StoredWasAnnounced<V>(default: V, ms: seq<Move<V>>, same: (V, V) -> bool, k: nat)
    requires Interleaving(New(default), ms, same)
    requires k < |LogOf(default, ms, same)| && LogOf(default, ms, same)[k].Published?
    ensures var log := LogOf(default, ms, same);
            exists p :: 0 <= p < k && log[p] == Passed(log[k].t, log[k].v) && Unused(log[..k], log[k].t, p)
  {
    Reachable(default, ms, same);
    assert PublishOk(LogOf(default, ms, same), k);
  }

  lemma {:induction false} LastStoredIsThere<V>(log: seq<Event<V>>, default: V)
    ensures LastStored(log, default) == default
            || exists i :: 0 <= i < |log| && log[i].Published? && log[i].v == LastStored(log, default)
    decreases |log|
  {
    if log != [] && !log[|log| - 1].Published? {
      LastStoredIsThere(log[..|log| - 1], default);
      if LastStored(log, default) != default {
        var i :| 0 <= i < |log| - 1 && log[i].Published? && log[i].v == LastStored(log, default);
      }
    }
  }

  /** What getValue returns is the value stored last; it is the default, or it was
      announced to every listener before it was stored. */
  lemma GotWasAnnounced<V>(default: V, ms: seq<Move<V>>, same: (V, V) -> bool, k: nat)
    requires Interleaving(New(default), ms, same)
    requires k < |LogOf(default, ms, same)| && LogOf(default, ms, same)[k].Got?
    ensures var log := LogOf(default, ms, same);
            && log[k].v == LastStored(log[..k], default)
            && (log[k].v == default ||
                exists u, p, i :: 0 <= p < i < k && log[p] == Passed(u, log[k].v) && log[i] == Published(u, log[k].v))
  {
    Reachable(default, ms, same);
    var log := LogOf(default, ms, same);
    assert GotOk(log, default, k);
    LastStoredIsThere(log[..k], default);
    if log[k].v != default {
      var i :| 0 <= i < k && log[..k][i].Published? && log[..k][i].v == log[k].v;
      assert PublishOk(log, i);
      var p :| 0 <= p < i && log[p] == Passed(log[i].t, log[i].v) && Unused(log[..i], log[i].t, p);
      assert log[p] == Passed(log[i].t, log[k].v) && log[i] == Published(log[i].t, log[k].v);
    }
  }
}
