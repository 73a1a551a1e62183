/**
 What each call on a ConfigVar has done when it has ended, in every interleaving, and that a
 call by itself ends.  The machine and its invariant are those of ConfigVarRace.
 */
module ConfigVarCalls {
  import opened Wrappers
  import opened ConfigVarRace

  // -------------------------------------------------- what each call has done

  /** The events of one thread. */
  function Own<V>(t: Tid, log: seq<Event<V>>): seq<Event<V>>
    decreases |log|
  {
    if log == [] then []
    else
      var before := Own(t, log[..|log| - 1]);
      if log[|log| - 1].t == t then before + [log[|log| - 1]] else before
  }

  lemma OwnEnd<V>(t: Tid, log: seq<Event<V>>, n: nat, e: Event<V>)
    requires n <= |log|
    ensures Own(t, (log + [e])[n..]) == Own(t, log[n..]) + if e.t == t then [e] else []
  {
    assert (log + [e])[n..] == log[n..] + [e];
    assert (log[n..] + [e])[..|log| - n] == log[n..];
  }

  /** A setValue(v) that began after `n` events found a value that v is not equal to, the one
      stored last before `start`; the listeners registered then are `told`. */
  ghost predicate Differs<V>(log: seq<Event<V>>, default: V, t: Tid, v: V, n: nat, same: (V, V) -> bool,
                             start: int, told: seq<Id>) {
    && n <= start < |log|
    && log[start] == Started(t, LastStored(log[..start], default), v, Registered(log[..start]))
    && !same(v, LastStored(log[..start], default))
    && Ascending(told) && (set x | x in told) == Registered(log[..start])
  }

  /** ... and has told each of them, and gone on as `tail` says. */
  ghost predicate Announced<V>(log: seq<Event<V>>, default: V, t: Tid, v: V, n: nat, same: (V, V) -> bool,
                               tail: seq<Event<V>>)
    requires n <= |log|
  {
    exists start, told :: Differs(log, default, t, v, n, same, start, told) &&
      Own(t, log[n..]) == [log[start]] + Tells(t, told, log[start].was, v) + tail
  }

  /** setValue(v) met a value that v is equal to, the one stored last before `k`, and did
      nothing. */
  ghost predicate Kept<V>(log: seq<Event<V>>, default: V, t: Tid, v: V, n: nat, same: (V, V) -> bool)
    requires n <= |log|
  {
    Own(t, log[n..]) == [] && exists k :: n <= k <= |log| && same(v, LastStored(log[..k], default))
  }

  /** setValue(v) met another value, told every listener and stored v, once. */
  ghost predicate Replaced<V>(log: seq<Event<V>>, default: V, t: Tid, v: V, n: nat, same: (V, V) -> bool)
    requires n <= |log|
  {
    Announced(log, default, t, v, n, same, [Passed(t, v), Published(t, v)])
  }

  ghost predicate Copied<V>(log: seq<Event<V>>, default: V, t: Tid, n: nat)
    requires n <= |log|
  {
    exists k :: n <= k <= |log| && Own(t, log[n..]) == [Got(t, LastStored(log[..k], default))]
  }

  /** What a call that began after `n` events has logged when it has ended. */
  ghost predicate Done<V>(log: seq<Event<V>>, default: V, t: Tid, call: Call<V>, n: nat, same: (V, V) -> bool)
    requires n <= |log|
  {
    match call
    case SetValue(v) => Kept(log, default, t, v, n, same) || Replaced(log, default, t, v, n, same)
    case GetValue => Copied(log, default, t, n)
    case Edit(change) => Own(t, log[n..]) == [Edited(t, change)]
  }

  /** ... and on its way there. */
  ghost predicate Under<V>(s: State<V>, default: V, t: Tid, call: Call<V>, n: nat, same: (V, V) -> bool) {
    n <= |s.log| &&
    match At(s, t)
    case Idle => Done(s.log, default, t, call, n, same)
    case WantRead(v) => call == SetValue(v) && Own(t, s.log[n..]) == []
    case Compare(v) => call == SetValue(v) && Own(t, s.log[n..]) == []
    case UnlockEqual => call.SetValue? && Kept(s.log, default, t, call.v, n, same)
    case Notify(v, start, told) =>
      && call == SetValue(v) && n <= start < |s.log| && s.log[start].Started?
      && !same(v, s.log[start].was)
      && Own(t, s.log[n..]) == [s.log[start]] + Tells(t, told, s.log[start].was, v)
    case Unlock(v, _) => call == SetValue(v) && Announced(s.log, default, t, v, n, same, [Passed(t, v)])
    case WantWrite(v, _) => call == SetValue(v) && Announced(s.log, default, t, v, n, same, [Passed(t, v)])
    case Store(v, _) => call == SetValue(v) && Announced(s.log, default, t, v, n, same, [Passed(t, v)])
    case Stored => call.SetValue? && Replaced(s.log, default, t, call.v, n, same)
    case GetWant => call.GetValue? && Own(t, s.log[n..]) == []
    case GetCopy => call.GetValue? && Own(t, s.log[n..]) == []
    case GetDone => call.GetValue? && Copied(s.log, default, t, n)
    case EditWant(change) => call == Edit(change) && Own(t, s.log[n..]) == []
    case EditDo(change) => call == Edit(change) && Own(t, s.log[n..]) == []
    case EditDone => call.Edit? && Own(t, s.log[n..]) == [Edited(t, call.change)]
  }

  // ---- another thread's event

  lemma DiffersStays<V>(log: seq<Event<V>>, e: Event<V>, default: V, t: Tid, v: V, n: nat, same: (V, V) -> bool,
                        start: int, told: seq<Id>)
    requires Differs(log, default, t, v, n, same, start, told)
    ensures Differs(log + [e], default, t, v, n, same, start, told) && (log + [e])[start] == log[start]
  {
    assert (log + [e])[..start] == log[..start];
  }

  lemma AnnouncedThen<V>(log: seq<Event<V>>, e: Event<V>, default: V, t: Tid, v: V, n: nat, same: (V, V) -> bool,
                         tail: seq<Event<V>>)
    requires n <= |log| && Announced(log, default, t, v, n, same, tail)
    ensures Announced(log + [e], default, t, v, n, same, tail + if e.t == t then [e] else [])
  {
    var start, told :| Differs(log, default, t, v, n, same, start, told) &&
      Own(t, log[n..]) == [log[start]] + Tells(t, told, log[start].was, v) + tail;
    OwnEnd(t, log, n, e);
    DiffersStays(log, e, default, t, v, n, same, start, told);
    var more := if e.t == t then [e] else [];
    assert Own(t, (log + [e])[n..]) == [log[start]] + Tells(t, told, log[start].was, v) + (tail + more);
  }

  lemma KeptStays<V>(log: seq<Event<V>>, e: Event<V>, default: V, t: Tid, v: V, n: nat, same: (V, V) -> bool)
    requires n <= |log| && Kept(log, default, t, v, n, same) && e.t != t
    ensures Kept(log + [e], default, t, v, n, same)
  {
    var k :| n <= k <= |log| && same(v, LastStored(log[..k], default));
    OwnEnd(t, log, n, e);
    assert (log + [e])[..k] == log[..k];
  }

  lemma CopiedStays<V>(log: seq<Event<V>>, e: Event<V>, default: V, t: Tid, n: nat)
    requires n <= |log| && Copied(log, default, t, n) && e.t != t
    ensures Copied(log + [e], default, t, n)
  {
    var k :| n <= k <= |log| && Own(t, log[n..]) == [Got(t, LastStored(log[..k], default))];
    OwnEnd(t, log, n, e);
    assert (log + [e])[..k] == log[..k];
  }

  lemma OthersLeave<V>(s: State<V>, s1: State<V>, e: Event<V>, default: V, t: Tid, call: Call<V>, n: nat,
                       same: (V, V) -> bool)
    requires Under(s, default, t, call, n, same) && e.t != t
    requires s1.log == s.log + [e] && At(s1, t) == At(s, t)
    ensures Under(s1, default, t, call, n, same)
  {
    hide Kept, Copied, Announced;
    OwnEnd(t, s.log, n, e);
    if call.SetValue? {
      if Kept(s.log, default, t, call.v, n, same) {
        KeptStays(s.log, e, default, t, call.v, n, same);
      }
      var one, both := [Passed(t, call.v)], [Passed(t, call.v), Published(t, call.v)];
      assert one + [] == one && both + [] == both;
      if Announced(s.log, default, t, call.v, n, same, one) {
        AnnouncedThen(s.log, e, default, t, call.v, n, same, one);
      }
      if Announced(s.log, default, t, call.v, n, same, both) {
        AnnouncedThen(s.log, e, default, t, call.v, n, same, both);
      }
    }
    if Copied(s.log, default, t, n) {
      CopiedStays(s.log, e, default, t, n);
    }
  }

  // ---- the thread's own steps

  lemma CompareGoesOn<V>(s: State<V>, default: V, t: Tid, call: Call<V>, n: nat, same: (V, V) -> bool)
    requires Inv(s, default) && Under(s, default, t, call, n, same) && At(s, t).Compare?
    ensures Under(Step(s, t, same), default, t, call, n, same)
  {
    hide LocksOk, LogOk, PcOk;
    var v := At(s, t).v;
    if same(v, s.val) {
      assert s.log[..|s.log|] == s.log;
    } else {
      OwnEnd(t, s.log, n, Started(t, s.val, v, s.cbs));
    }
  }

  lemma TellGoesOn<V>(s: State<V>, default: V, t: Tid, call: Call<V>, n: nat, same: (V, V) -> bool)
    requires Inv(s, default) && Under(s, default, t, call, n, same) && At(s, t).Notify?
    requires NextId(s.cbs, Last(At(s, t).told)).Some?
    ensures Under(Step(s, t, same), default, t, call, n, same)
  {
    hide LocksOk, LogOk;
    var Notify(v, start, told) := At(s, t);
    assert PcOk(s, default, s.pcs[t], t);
    var id := NextId(s.cbs, Last(told)).value;
    OwnEnd(t, s.log, n, Told(t, id, s.val, v));
    assert Tells(t, told + [id], s.val, v) == Tells(t, told, s.val, v) + [Told(t, id, s.val, v)];
  }

  lemma EndGoesOn<V>(s: State<V>, default: V, t: Tid, call: Call<V>, n: nat, same: (V, V) -> bool)
    requires Inv(s, default) && Under(s, default, t, call, n, same) && At(s, t).Notify?
    requires NextId(s.cbs, Last(At(s, t).told)).None?
    ensures Under(Step(s, t, same), default, t, call, n, same)
  {
    hide LocksOk, LogOk;
    var Notify(v, start, told) := At(s, t);
    assert PcOk(s, default, s.pcs[t], t);
    assert (set x | x in told) == s.cbs;
    assert Differs(s.log, default, t, v, n, same, start, told);
    assert Own(t, s.log[n..]) == [s.log[start]] + Tells(t, told, s.log[start].was, v) + [];
    AnnouncedThen(s.log, Passed(t, v), default, t, v, n, same, []);
    assert [] + [Passed(t, v)] == [Passed(t, v)];
  }

  lemma StoreGoesOn<V>(s: State<V>, default: V, t: Tid, call: Call<V>, n: nat, same: (V, V) -> bool)
    requires Under(s, default, t, call, n, same) && At(s, t).Store?
    ensures Under(Step(s, t, same), default, t, call, n, same)
  {
    hide Announced;
    var v := At(s, t).v;
    AnnouncedThen(s.log, Published(t, v), default, t, v, n, same, [Passed(t, v)]);
    assert [Passed(t, v)] + [Published(t, v)] == [Passed(t, v), Published(t, v)];
  }

  lemma ValueIsStoredLast<V>(s: State<V>, default: V)
    requires Inv(s, default)
    ensures s.val == LastStored(s.log, default)
  {
  }

  lemma CopyGoesOn<V>(s: State<V>, default: V, t: Tid, call: Call<V>, n: nat, same: (V, V) -> bool)
    requires Inv(s, default) && Under(s, default, t, call, n, same) && At(s, t).GetCopy?
    ensures Under(Step(s, t, same), default, t, call, n, same)
  {
    hide LocksOk, LogOk, PcOk, LastStored, Own;
    ValueIsStoredLast(s, default);
    OwnEnd(t, s.log, n, Got(t, s.val));
    assert (s.log + [Got(t, s.val)])[..|s.log|] == s.log;
  }

  lemma EditGoesOn<V>(s: State<V>, default: V, t: Tid, call: Call<V>, n: nat, same: (V, V) -> bool)
    requires Under(s, default, t, call, n, same) && At(s, t).EditDo?
    ensures Under(Step(s, t, same), default, t, call, n, same)
  {
    OwnEnd(t, s.log, n, Edited(t, At(s, t).change));
  }

  lemma SilentGoesOn<V>(s: State<V>, default: V, t: Tid, call: Call<V>, n: nat, same: (V, V) -> bool)
    requires Under(s, default, t, call, n, same) && Enabled(s, t)
    requires var pc := At(s, t); !pc.Compare? && !pc.Notify? && !pc.Store? && !pc.GetCopy? && !pc.EditDo?
    ensures Under(Step(s, t, same), default, t, call, n, same)
  {
    hide Announced, Kept, Copied, Own;
  }

  lemma OwnStepGoesOn<V>(s: State<V>, default: V, t: Tid, call: Call<V>, n: nat, same: (V, V) -> bool)
    requires Inv(s, default) && Under(s, default, t, call, n, same) && Enabled(s, t)
    ensures Under(Step(s, t, same), default, t, call, n, same)
  {
    hide Inv, Under, Step;
    match At(s, t)
    case Compare(_) => CompareGoesOn(s, default, t, call, n, same);
    case Notify(_, _, told) =>
      if NextId(s.cbs, Last(told)).Some? {
        TellGoesOn(s, default, t, call, n, same);
      } else {
        EndGoesOn(s, default, t, call, n, same);
      }
    case Store(_, _) => StoreGoesOn(s, default, t, call, n, same);
    case GetCopy => CopyGoesOn(s, default, t, call, n, same);
    case EditDo(_) => EditGoesOn(s, default, t, call, n, same);
    case _ => SilentGoesOn(s, default, t, call, n, same);
  }

  /** A move logs at most one event, of its own thread, and moves no other thread. */
  lemma MoveLogs<V>(s: State<V>, m: Move<V>, same: (V, V) -> bool)
    requires CanMove(s, m)
    ensures var s1 := Apply(s, m, same);
            && (forall u: Tid | u != m.t :: At(s1, u) == At(s, u))
            && (s1.log == s.log || (exists e :: s1.log == s.log + [e] && e.t == m.t))
  {
    var s1 := Apply(s, m, same);
    if s1.log != s.log {
      var e := s1.log[|s.log|];
      assert s1.log == s.log + [e] && e.t == m.t;
    }
  }

  lemma MoveGoesOn<V>(s: State<V>, default: V, m: Move<V>, t: Tid, call: Call<V>, n: nat, same: (V, V) -> bool)
    requires Inv(s, default) && Under(s, default, t, call, n, same) && CanMove(s, m)
    requires !(m.BeginCall? && m.t == t)
    ensures Under(Apply(s, m, same), default, t, call, n, same)
  {
    hide Inv, Step, Begin;
    if m.t == t {
      OwnStepGoesOn(s, default, t, call, n, same);
    } else {
      MoveLogs(s, m, same);
      var s1 := Apply(s, m, same);
      if s1.log != s.log {
        var e :| s1.log == s.log + [e] && e.t == m.t;
        OthersLeave(s, s1, e, default, t, call, n, same);
      }
    }
  }

  // ---- whole calls

  predicate NoCallBy<V(!new)>(ms: seq<Move<V>>, t: Tid) {
    forall i | 0 <= i < |ms| :: !(ms[i].BeginCall? && ms[i].t == t)
  }

  lemma {:induction false} RunGoesOn<V(!new)>(s: State<V>, default: V, ms: seq<Move<V>>, t: Tid, call: Call<V>, n: nat,
                                        same: (V, V) -> bool)
    requires Inv(s, default) && Under(s, default, t, call, n, same)
    requires Interleaving(s, ms, same) && NoCallBy(ms, t)
    ensures Under(After(s, ms, same), default, t, call, n, same)
    decreases |ms|
  {
    hide Inv, Under, Apply, CanMove;
    if ms != [] {
      MoveGoesOn(s, default, ms[0], t, call, n, same);
      MoveKeeps(s, default, ms[0], same);
      RunGoesOn(Apply(s, ms[0], same), default, ms[1..], t, call, n, same);
    }
  }

  lemma {:induction false} SplitAt<V>(s: State<V>, ms: seq<Move<V>>, i: nat, same: (V, V) -> bool)
    requires Interleaving(s, ms, same) && i <= |ms|
    ensures Interleaving(s, ms[..i], same) && Interleaving(After(s, ms[..i], same), ms[i..], same)
    ensures After(s, ms, same) == After(After(s, ms[..i], same), ms[i..], same)
    decreases i
  {
    hide Apply, CanMove;
    if i == 0 {
      assert ms[..0] == [] && ms[0..] == ms;
    } else {
      SplitAt(Apply(s, ms[0], same), ms[1..], i - 1, same);
      assert ms[..i][1..] == ms[1..][..i - 1] && ms[i..] == ms[1..][i - 1..];
    }
  }

  lemma BeginIsUnder<V>(s: State<V>, default: V, t: Tid, call: Call<V>, same: (V, V) -> bool)
    requires At(s, t).Idle?
    ensures Under(Begin(s, t, call), default, t, call, |s.log|, same)
  {
    assert s.log[|s.log|..] == [];
  }

  /** Move `i` begins a call that has ended by the end of the interleaving. */
  ghost predicate Ended<V(!new)>(default: V, ms: seq<Move<V>>, i: nat, t: Tid, call: Call<V>, same: (V, V) -> bool) {
    && Interleaving(New(default), ms, same)
    && i < |ms| && ms[i] == BeginCall(t, call) && NoCallBy(ms[i + 1..], t)
    && At(After(New(default), ms, same), t).Idle?
  }

  /** In every interleaving a call that has ended has done what it is for: its events since
      it began are those of one setValue, getValue or edit, and no others. */
  lemma EveryCallIsDone<V(!new)>(default: V, ms: seq<Move<V>>, i: nat, t: Tid, call: Call<V>, same: (V, V) -> bool)
    requires Ended(default, ms, i, t, call, same)
    ensures Interleaving(New(default), ms[..i], same)
    ensures var n := |LogOf(default, ms[..i], same)|;
            n <= |LogOf(default, ms, same)| && Done(LogOf(default, ms, same), default, t, call, n, same)
  {
    hide Apply, CanMove, Done, Inv, Begin;
    SplitAt(New(default), ms, i, same);
    Reachable(default, ms[..i], same);
    var s := After(New(default), ms[..i], same);
    BeginsHere(s, default, ms[i..], t, call, same);
    assert ms[i..][1..] == ms[i + 1..];
    RunGoesOn(Begin(s, t, call), default, ms[i + 1..], t, call, |s.log|, same);
  }

  lemma BeginsHere<V>(s: State<V>, default: V, ms: seq<Move<V>>, t: Tid, call: Call<V>, same: (V, V) -> bool)
    requires Inv(s, default) && Interleaving(s, ms, same) && ms != [] && ms[0] == BeginCall(t, call)
    ensures At(s, t).Idle? && Apply(s, ms[0], same) == Begin(s, t, call) && Inv(Begin(s, t, call), default)
    ensures Under(Begin(s, t, call), default, t, call, |s.log|, same)
    ensures Interleaving(Begin(s, t, call), ms[1..], same)
    ensures After(s, ms, same) == After(Begin(s, t, call), ms[1..], same)
  {
    hide Inv, Under, Begin;
    BeginKeeps(s, default, t, call);
    BeginIsUnder(s, default, t, call, same);
  }

  /** A setValue(v) that has ended did exactly one of two things.  It met, since it began, a
      stored value that v is equal to, and told and stored nothing.  Or it met another, told
      each listener registered then, in order, with that value and v, and stored v once. */
  lemma SetValueKeepsOrReplaces<V(!new)>(default: V, ms: seq<Move<V>>, i: nat, t: Tid, v: V, same: (V, V) -> bool)
    requires Ended(default, ms, i, t, SetValue(v), same)
    ensures Interleaving(New(default), ms[..i], same)
    ensures var log, n := LogOf(default, ms, same), |LogOf(default, ms[..i], same)|;
            n <= |log| && (Kept(log, default, t, v, n, same) <==> !Replaced(log, default, t, v, n, same))
  {
    EveryCallIsDone(default, ms, i, t, SetValue(v), same);
    hide LogOf, Interleaving, Ended;
  }

  // ---- a writer without rivals

  lemma {:induction false} NoneOwn<V(!new)>(t: Tid, log: seq<Event<V>>)
    requires Own(t, log) == []
    ensures forall i | 0 <= i < |log| :: log[i].t != t
    decreases |log|
  {
    if log != [] {
      NoneOwn(t, log[..|log| - 1]);
    }
  }

  lemma {:induction false} LastOwn<V(!new)>(t: Tid, log: seq<Event<V>>) returns (j: nat)
    requires Own(t, log) != []
    ensures j < |log| && log[j] == Own(t, log)[|Own(t, log)| - 1] && forall i | j < i < |log| :: log[i].t != t
    decreases |log|
  {
    if log[|log| - 1].t == t {
      j := |log| - 1;
    } else {
      j := LastOwn(t, log[..|log| - 1]);
    }
  }

  lemma {:induction false} NothingStored<V(!new)>(log: seq<Event<V>>, k: nat, default: V)
    requires k <= |log| && forall i | k <= i < |log| :: !log[i].Published?
    ensures LastStored(log, default) == LastStored(log[..k], default)
    decreases |log|
  {
    if k == |log| {
      assert log[..k] == log;
    } else {
      NothingStored(log[..|log| - 1], k, default);
      assert log[..|log| - 1][..k] == log[..k];
    }
  }

  /** When no other thread has stored a value meanwhile, the variable then holds v, or a value
      that v is equal to. */
  lemma StoredUnlessEqual<V(!new)>(default: V, ms: seq<Move<V>>, i: nat, t: Tid, v: V, same: (V, V) -> bool)
    requires Ended(default, ms, i, t, SetValue(v), same)
    requires Interleaving(New(default), ms[..i], same)
    requires forall j | |LogOf(default, ms[..i], same)| <= j < |LogOf(default, ms, same)| ::
               LogOf(default, ms, same)[j].Published? ==> LogOf(default, ms, same)[j].t == t
    ensures After(New(default), ms, same).val == v || same(v, After(New(default), ms, same).val)
  {
    EveryCallIsDone(default, ms, i, t, SetValue(v), same);
    Reachable(default, ms, same);
    WithoutRivals(LogOf(default, ms, same), default, t, v, |LogOf(default, ms[..i], same)|, same);
  }

  lemma WithoutRivals<V(!new)>(log: seq<Event<V>>, default: V, t: Tid, v: V, n: nat, same: (V, V) -> bool)
    requires n <= |log| && (Kept(log, default, t, v, n, same) || Replaced(log, default, t, v, n, same))
    requires forall j | n <= j < |log| :: log[j].Published? ==> log[j].t == t
    ensures LastStored(log, default) == v || same(v, LastStored(log, default))
  {
    hide Kept, Replaced;
    if Kept(log, default, t, v, n, same) {
      KeptIsEqual(log, default, t, v, n, same);
    } else {
      ReplacedIsStored(log, default, t, v, n, same);
    }
  }

  lemma KeptIsEqual<V(!new)>(log: seq<Event<V>>, default: V, t: Tid, v: V, n: nat, same: (V, V) -> bool)
    requires n <= |log| && Kept(log, default, t, v, n, same)
    requires forall j | n <= j < |log| :: log[j].Published? ==> log[j].t == t
    ensures same(v, LastStored(log, default))
  {
    var k :| n <= k <= |log| && same(v, LastStored(log[..k], default));
    NoneOwn(t, log[n..]);
    assert forall j | n <= j < |log| :: log[j] == log[n..][j - n];
    NothingStored(log, k, default);
  }

  lemma LastPublished<V(!new)>(log: seq<Event<V>>, default: V, t: Tid, n: nat, v: V)
    requires n <= |log| && Own(t, log[n..]) != [] && Own(t, log[n..])[|Own(t, log[n..])| - 1] == Published(t, v)
    requires forall j | n <= j < |log| :: log[j].Published? ==> log[j].t == t
    ensures LastStored(log, default) == v
  {
    var j := LastOwn(t, log[n..]);
    var k := n + j;
    assert forall i | n <= i < |log| :: log[i] == log[n..][i - n];
    NothingStored(log, k + 1, default);
    assert log[..k + 1][..k] == log[..k];
  }

  lemma ReplacedIsStored<V(!new)>(log: seq<Event<V>>, default: V, t: Tid, v: V, n: nat, same: (V, V) -> bool)
    requires n <= |log| && Replaced(log, default, t, v, n, same)
    requires forall j | n <= j < |log| :: log[j].Published? ==> log[j].t == t
    ensures LastStored(log, default) == v
  {
    LastPublished(log, default, t, n, v);
  }

  // ---- a thread by itself

  /** How far a call is from its end, listeners aside. */
  function Rank<V>(pc: Pc<V>): nat {
    match pc
    case Idle => 0
    case Stored => 1
    case Store(_, _) => 2
    case WantWrite(_, _) => 3
    case Unlock(_, _) => 4
    case UnlockEqual => 1
    case Notify(_, _, _) => 5
    case Compare(_) => 6
    case WantRead(_) => 7
    case GetDone => 1
    case GetCopy => 2
    case GetWant => 3
    case EditDone => 1
    case EditDo(_) => 2
    case EditWant(_) => 3
  }

  function ToTell<V>(s: State<V>, t: Tid): set<Id> {
    match At(s, t)
    case Notify(_, _, told) => set x | x in s.cbs && x > Last(told)
    case _ => {}
  }

  ghost predicate Alone<V>(s: State<V>, t: Tid) {
    forall u: Tid | u != t :: At(s, u).Idle?
  }

  predicate OnlyGoesOn<V(!new)>(ms: seq<Move<V>>, t: Tid) {
    forall i | 0 <= i < |ms| :: ms[i] == GoOn(t)
  }

  lemma AloneIsEnabled<V>(s: State<V>, t: Tid)
    requires LocksOk(s) && Alone(s, t) && !At(s, t).Idle?
    ensures Enabled(s, t)
  {
    var pc := At(s, t);
    if pc.WantRead? || pc.GetWant? || pc.WantWrite? || pc.EditWant? {
      assert forall u: Tid :: !WritesNow(At(s, u)) && !Reads(At(s, u));
      assert s.writer.None? by {
        assert forall u: Tid :: s.writer == Some(u) ==> WritesNow(At(s, u));
      }
      assert forall u: Tid :: u !in s.readers;
      assert s.readers == {};
    }
  }

  lemma StepGetsOn<V>(s: State<V>, t: Tid, same: (V, V) -> bool)
    requires Enabled(s, t)
    ensures var s1 := Step(s, t, same);
            Rank(At(s1, t)) < Rank(At(s, t)) || (Rank(At(s1, t)) == Rank(At(s, t)) && |ToTell(s1, t)| < |ToTell(s, t)|)
    ensures forall u: Tid | u != t :: At(Step(s, t, same), u) == At(s, u)
  {
    var s1 := Step(s, t, same);
    if At(s, t).Notify? && NextId(s.cbs, Last(At(s, t).told)).Some? {
      var id := NextId(s.cbs, Last(At(s, t).told)).value;
      assert ToTell(s1, t) <= ToTell(s, t) - {id};
      Smaller(ToTell(s1, t), ToTell(s, t), id);
    }
  }

  lemma Smaller(a: set<Id>, b: set<Id>, id: Id)
    requires a <= b - {id} && id in b
    ensures |a| < |b|
    decreases |a|
  {
    if a != {} {
      var x :| x in a;
      Smaller(a - {x}, b - {x}, id);
    }
  }

  lemma MovesAfter<V(!new)>(s: State<V>, m: Move<V>, rest: seq<Move<V>>, same: (V, V) -> bool)
    requires CanMove(s, m) && Interleaving(Apply(s, m, same), rest, same)
    ensures Interleaving(s, [m] + rest, same)
    ensures After(s, [m] + rest, same) == After(Apply(s, m, same), rest, same)
  {
    hide Apply, CanMove;
    assert ([m] + rest)[1..] == rest;
  }

  /** A thread by itself ends whatever call it is in. */
  lemma {:induction false} EndsAlone<V(!new)>(s: State<V>, default: V, t: Tid, same: (V, V) -> bool) returns (ms: seq<Move<V>>)
    requires Inv(s, default) && Alone(s, t)
    ensures OnlyGoesOn(ms, t) && Interleaving(s, ms, same)
    ensures forall u: Tid :: At(After(s, ms, same), u).Idle?
    decreases Rank(At(s, t)), |ToTell(s, t)|
  {
    ms := [];
    if !At(s, t).Idle? {
      hide Step, Rank, ToTell, PcOk, LogOk;
      AloneIsEnabled(s, t);
      StepGetsOn(s, t, same);
      MoveKeeps(s, default, GoOn(t), same);
      var rest := EndsAlone(Step(s, t, same), default, t, same);
      MovesAfter(s, GoOn(t), rest, same);
      ms := [GoOn(t)] + rest;
    }
  }

  lemma {:induction false} JoinRuns<V(!new)>(s: State<V>, a: seq<Move<V>>, b: seq<Move<V>>, same: (V, V) -> bool)
    requires Interleaving(s, a, same) && Interleaving(After(s, a, same), b, same)
    ensures Interleaving(s, a + b, same) && After(s, a + b, same) == After(After(s, a, same), b, same)
    decreases |a|
  {
    hide Apply, CanMove;
    if a == [] {
      assert a + b == b;
    } else {
      JoinRuns(Apply(s, a[0], same), a[1..], b, same);
      assert (a + b)[1..] == a[1..] + b;
    }
  }

  lemma {:induction false} OnlyOwnEvents<V(!new)>(s: State<V>, ms: seq<Move<V>>, t: Tid, same: (V, V) -> bool)
    requires OnlyGoesOn(ms, t) && Interleaving(s, ms, same)
    ensures s.log <= After(s, ms, same).log
    ensures forall j | |s.log| <= j < |After(s, ms, same).log| :: After(s, ms, same).log[j].t == t
    decreases |ms|
  {
    hide Apply, CanMove;
    if ms != [] {
      MoveLogs(s, ms[0], same);
      OnlyOwnEvents(Apply(s, ms[0], same), ms[1..], t, same);
    }
  }

  ghost predicate AllIdle<V>(s: State<V>) {
    forall u: Tid :: At(s, u).Idle?
  }

  /** A whole call by a thread when no other is in one. */
  lemma CallsAlone<V(!new)>(s: State<V>, default: V, t: Tid, call: Call<V>, same: (V, V) -> bool) returns (ms: seq<Move<V>>)
    requires Inv(s, default) && AllIdle(s)
    ensures OnlyGoesOn(ms, t) && Interleaving(s, [BeginCall(t, call)] + ms, same)
    ensures var s1 := After(s, [BeginCall(t, call)] + ms, same);
            && Inv(s1, default) && AllIdle(s1) && s.log <= s1.log
            && (forall j | |s.log| <= j < |s1.log| :: s1.log[j].t == t)
            && Done(s1.log, default, t, call, |s.log|, same)
  {
    hide Inv, Done;
    BeginKeeps(s, default, t, call);
    BeginIsUnder(s, default, t, call, same);
    assert forall u: Tid | u != t :: At(Begin(s, t, call), u) == At(s, u);
    ms := EndsAlone(Begin(s, t, call), default, t, same);
    OnlyOwnEvents(Begin(s, t, call), ms, t, same);
    RunGoesOn(Begin(s, t, call), default, ms, t, call, |s.log|, same);
    InterleavingKeeps(Begin(s, t, call), default, ms, same);
    MovesAfter(s, BeginCall(t, call), ms, same);
  }

  lemma {:induction false} AllOwn<V(!new)>(t: Tid, log: seq<Event<V>>)
    requires forall i | 0 <= i < |log| :: log[i].t == t
    ensures Own(t, log) == log
    decreases |log|
  {
    if log != [] {
      AllOwn(t, log[..|log| - 1]);
    }
  }

  lemma GotWhatIsThere<V(!new)>(log: seq<Event<V>>, default: V, t: Tid, n: nat)
    requires n <= |log| && Copied(log, default, t, n) && forall j | n <= j < |log| :: log[j].t == t
    ensures log == log[..n] + [Got(t, LastStored(log, default))]
  {
    hide Own, LastStored;
    var k :| n <= k <= |log| && Own(t, log[n..]) == [Got(t, LastStored(log[..k], default))];
    AllOwn(t, log[n..]);
    OneGot(log, default, t, n, LastStored(log[..k], default));
    NothingStored(log, k, default);
  }

  lemma OneGot<V(!new)>(log: seq<Event<V>>, default: V, t: Tid, n: nat, x: V)
    requires n <= |log| && log[n..] == [Got(t, x)]
    ensures log == log[..n] + [Got(t, x)] && forall i | n <= i < |log| :: !log[i].Published?
  {
    assert log == log[..n] + log[n..];
    assert forall i | n <= i < |log| :: log[i] == log[n..][i - n];
  }

  /** Whatever has happened before: a thread by itself can set a value and get one, and what it
      gets is the value it set, or one that it is equal to. */
  lemma SetThenGet<V(!new)>(default: V, ms: seq<Move<V>>, t: Tid, v: V, same: (V, V) -> bool)
    returns (a: seq<Move<V>>, b: seq<Move<V>>, x: V)
    requires Interleaving(New(default), ms, same) && AllIdle(After(New(default), ms, same))
    ensures OnlyGoesOn(a, t) && OnlyGoesOn(b, t)
    ensures var all := ms + (([BeginCall(t, SetValue(v))] + a) + ([BeginCall(t, GetValue)] + b));
            && Interleaving(New(default), all, same)
            && LogOf(default, all, same) != []
            && LogOf(default, all, same)[|LogOf(default, all, same)| - 1] == Got(t, x)
    ensures x == v || same(v, x)
  {
    hide Inv, Interleaving, After, Kept, Replaced, Copied, AllIdle;
    Reachable(default, ms, same);
    var s := After(New(default), ms, same);
    a := CallsAlone(s, default, t, SetValue(v), same);
    var setting := [BeginCall(t, SetValue(v))] + a;
    var s1 := After(s, setting, same);
    WithoutRivals(s1.log, default, t, v, |s.log|, same);
    b := CallsAlone(s1, default, t, GetValue, same);
    var getting := [BeginCall(t, GetValue)] + b;
    var s2 := After(s1, getting, same);
    GotWhatIsThere(s2.log, default, t, |s1.log|);
    x := LastStored(s2.log, default);
    SameAsBefore(s1.log, s2.log, default, t);
    JoinRuns(s, setting, getting, same);
    JoinRuns(New(default), ms, setting + getting, same);
  }

  lemma SameAsBefore<V(!new)>(before: seq<Event<V>>, log: seq<Event<V>>, default: V, t: Tid)
    requires before <= log && log == log[..|before|] + [Got(t, LastStored(log, default))]
    ensures LastStored(log, default) == LastStored(before, default)
  {
    NothingStored(log, |before|, default);
    assert log[..|before|] == before;
  }

  predicate Removes<V>(e: Event<V>, id: Id) {
    e.Edited? && (e.change == DelListener(id) || e.change == ClearListener)
  }

  /** Entry k adds the listener, and none after it removes it. */
  predicate AddedAt<V(!new)>(log: seq<Event<V>>, id: Id, k: int) {
    && 0 <= k < |log| && log[k].Edited? && log[k].change == AddListener(id)
    && forall j | k < j < |log| :: !Removes(log[j], id)
  }

  lemma AddedBefore<V(!new)>(init: seq<Event<V>>, last: Event<V>, id: Id, k: int)
    requires k < |init|
    ensures AddedAt(init + [last], id, k) <==> AddedAt(init, id, k) && !Removes(last, id)
  {
    var log := init + [last];
    assert forall j | 0 <= j < |init| :: log[j] == init[j];
    assert log[|init|] == last;
  }

  /** A listener is registered when it was added and neither it nor all were removed since. */
  lemma {:induction false} RegisteredExactly<V(!new)>(log: seq<Event<V>>, id: Id)
    ensures id in Registered(log) <==> exists k :: AddedAt(log, id, k)
    decreases |log|
  {
    if log != [] {
      var init, last := log[..|log| - 1], log[|log| - 1];
      assert log == init + [last];
      RegisteredExactly(init, id);
      forall k | k < |init| ensures AddedAt(log, id, k) <==> AddedAt(init, id, k) && !Removes(last, id) {
        AddedBefore(init, last, id, k);
      }
      assert AddedAt(log, id, |init|) <==> last.Edited? && last.change == AddListener(id);
    }
  }
}
