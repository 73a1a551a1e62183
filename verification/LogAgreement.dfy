/**
 What any sequence of updates of "logs" leaves in the logger table, stated in terms of the
 definitions handed to setValue alone.

 `LogDefine::operator==` overlooks the appenders, so an update that edits only appenders
 may be dropped; the statements below say which definition a logger's appenders come from.
 */
module LogAgreement {
  import opened Wrappers
  import opened Ordered
  import opened Pattern
  import opened LogDefines
  import opened Loggers
  import opened LogConfig

  // ------------------------------------------------------------ one update, one name

  /** In a set the last element's name occurs nowhere else. */
  lemma LastIsAlone(s: seq<LogDefine>)
    requires DefineSet(s) && s != []
    ensures DefineSet(s[..|s| - 1]) && Find(s[..|s| - 1], s[|s| - 1].name).None?
  {
    var init := s[..|s| - 1];
    FindGives(init, s[|s| - 1].name);
    if Find(init, s[|s| - 1].name).Some? {
      var i :| 0 <= i < |init| && init[i] == Find(init, s[|s| - 1].name).value;
      assert NameLess(s[i], s[|s| - 1]);
      StrLessAsymmetric(s[i].name, s[|s| - 1].name);
      assert false;
    }
  }

  /** Two optional definitions that operator== cannot tell apart: name, level and formatter are
      the same. */
  predicate Alike(a: Option<LogDefine>, b: Option<LogDefine>) {
    && (a.Some? <==> b.Some?)
    && (a.Some? ==> a.value.name == b.value.name && a.value.level == b.value.level && a.value.formatter == b.value.formatter)
  }

  lemma {:induction false} EqualSetsAgree(a: seq<LogDefine>, b: seq<LogDefine>, n: string)
    requires SetEqual(a, b)
    ensures Alike(Find(a, n), Find(b, n))
  {
    if a != [] {
      assert SameDefine(a[|a| - 1], b[|b| - 1]);
      if a[|a| - 1].name != n {
        EqualSetsAgree(a[..|a| - 1], b[..|b| - 1], n);
      }
    }
  }

  function At(t: Table, n: string): Option<LoggerView> {
    if n in t then Some(t[n]) else None
  }

  lemma {:induction false} EditAt(t: Table, prev: seq<LogDefine>, next: seq<LogDefine>, d: bool, n: string)
    requires DefineSet(next)
    ensures At(EditAll(t, prev, next, d), n)
         == var def := Find(next, n);
            if def.Some? && Changed(prev, def.value) then Some(Applied(ViewOf(t, n), def.value, d)) else At(t, n)
  {
    hide Applied;
    if next != [] {
      LastIsAlone(next);
      EditAt(t, prev, next[..|next| - 1], d, n);
    }
  }

  lemma {:induction false} RemoveAt(t: Table, prev: seq<LogDefine>, next: seq<LogDefine>, n: string)
    requires DefineSet(prev)
    ensures At(RemoveAll(t, prev, next), n)
         == if Find(prev, n).Some? && Find(next, n).None? then Some(Retired(ViewOf(t, n))) else At(t, n)
  {
    if prev != [] {
      LastIsAlone(prev);
      RemoveAt(t, prev[..|prev| - 1], next, n);
    }
  }

  /** One setValue as one name sees it, whether or not the listener was called. */
  lemma UpdateAt(s: State, u: Update, n: string)
    requires DefineSet(s.val) && DefineSet(u.next)
    ensures At(SetValueSpec(s, u).loggers, n)
         == var def := Find(u.next, n);
            if def.Some? then
              if Changed(s.val, def.value) then Some(Applied(ViewOf(s.loggers, n), def.value, u.d)) else At(s.loggers, n)
            else if Find(s.val, n).Some? then Some(Retired(ViewOf(s.loggers, n)))
            else At(s.loggers, n)
  {
    hide Applied;
    FindGives(u.next, n);
    if SetEqual(u.next, s.val) {
      EqualSetsAgree(u.next, s.val, n);
    } else {
      EditAt(s.loggers, s.val, u.next, u.d, n);
      RemoveAt(EditAll(s.loggers, s.val, u.next, u.d), s.val, u.next, n);
    }
  }

  ghost predicate AllAlike(a: seq<LogDefine>, b: seq<LogDefine>) {
    forall n :: Alike(Find(a, n), Find(b, n))
  }

  /** A larger name is no element. */
  lemma {:induction false} AboveIsOutside(s: seq<LogDefine>, n: string)
    requires DefineSet(s) && s != [] && StrLess(s[|s| - 1].name, n)
    ensures Find(s, n).None?
  {
    FindGives(s, n);
    if Find(s, n).Some? {
      var i :| 0 <= i < |s| && s[i] == Find(s, n).value;
      assert i < |s| - 1 ==> NameLess(s[i], s[|s| - 1]);
      StrLessAsymmetric(s[|s| - 1].name, n);
      assert false;
    }
  }

  lemma SameLast(a: seq<LogDefine>, b: seq<LogDefine>)
    requires DefineSet(a) && DefineSet(b) && AllAlike(a, b) && a != []
    ensures b != [] && b[|b| - 1].name == a[|a| - 1].name
  {
    var n := a[|a| - 1].name;
    assert Alike(Find(a, n), Find(b, n));
    var m := b[|b| - 1].name;
    assert Alike(Find(a, m), Find(b, m));
    StrLessTotal(n, m);
    if StrLess(n, m) {
      AboveIsOutside(a, m);
    } else if StrLess(m, n) {
      AboveIsOutside(b, n);
    }
  }

  /** The listener is called unless the new set has the same names, each with the same level
      and formatter. */
  lemma {:induction false} SetsEqualExactlyWhen(a: seq<LogDefine>, b: seq<LogDefine>)
    requires DefineSet(a) && DefineSet(b)
    ensures SetEqual(a, b) <==> AllAlike(a, b)
  {
    if SetEqual(a, b) {
      forall n ensures Alike(Find(a, n), Find(b, n)) {
        EqualSetsAgree(a, b, n);
      }
    }
    if AllAlike(a, b) {
      if a == [] {
        if b != [] {
          SameLast(b, a);
          assert false;
        }
      } else {
        AlikeAreEqual(a, b);
      }
    }
  }

  lemma {:induction false} AlikeAreEqual(a: seq<LogDefine>, b: seq<LogDefine>)
    requires DefineSet(a) && DefineSet(b) && a != [] && AllAlike(a, b)
    ensures SetEqual(a, b)
    decreases |a|, 0
  {
    SameLast(a, b);
    var x, y := a[..|a| - 1], b[..|b| - 1];
    var last := a[|a| - 1].name;
    assert Alike(Find(a, last), Find(b, last));
    LastIsAlone(a);
    LastIsAlone(b);
    forall n ensures Alike(Find(x, n), Find(y, n)) {
      assert Alike(Find(a, n), Find(b, n));
    }
    if x == [] {
      if y != [] {
        SameLast(y, x);
        assert false;
      }
    } else {
      AlikeAreEqual(x, y);
    }
    assert SetEqual(x, y);
    forall i | 0 <= i < |a| ensures SameDefine(a[i], b[i]) {
      if i < |x| {
        assert SameDefine(x[i], y[i]);
      }
    }
  }

  // ------------------------------------------------------------------- whole runs

  ghost predicate Sets(us: seq<Update>) {
    forall i | 0 <= i < |us| :: DefineSet(us[i].next)
  }

  /** The definition of a name in the last update. */
  function Defined(us: seq<Update>, n: string): Option<LogDefine> {
    if us == [] then None else Find(us[|us| - 1].next, n)
  }

  /** Update i defines the name, newly or with another level or formatter than update i - 1. */
  predicate AppliedAt(us: seq<Update>, n: string, i: nat) {
    i < |us| &&
    var def := Find(us[i].next, n);
    var before := Defined(us[..i], n);
    def.Some? &&
    (before.None? || before.value.level != def.value.level || before.value.formatter != def.value.formatter)
  }

  predicate LastApplied(us: seq<Update>, n: string, i: nat) {
    AppliedAt(us, n, i) && forall j | i < j < |us| :: !AppliedAt(us, n, j)
  }

  /** Update i applies a definition of the name with a formatter that parses. */
  predicate StyledAt(us: seq<Update>, n: string, i: nat) {
    AppliedAt(us, n, i) && Usable(Find(us[i].next, n).value.formatter)
  }

  predicate LastStyled(us: seq<Update>, n: string, i: nat) {
    StyledAt(us, n, i) && forall j | i < j < |us| :: !StyledAt(us, n, j)
  }

  predicate EverDefined(us: seq<Update>, n: string) {
    exists i :: 0 <= i < |us| && Find(us[i].next, n).Some?
  }

  /** The variable holds the last update, or one operator== takes for it. */
  lemma {:induction false} ValueIsLast(start: Table, us: seq<Update>, n: string)
    requires Sets(us)
    ensures DefineSet(Run(State([], start), us).val)
    ensures Alike(Find(Run(State([], start), us).val, n), Defined(us, n))
  {
    if us != [] {
      var init := us[..|us| - 1];
      ValueIsLast(start, init, n);
      var s := Run(State([], start), init);
      if SetEqual(us[|us| - 1].next, s.val) {
        EqualSetsAgree(us[|us| - 1].next, s.val, n);
      }
    }
  }

  /** The last update of a run as one name sees it. */
  lemma RunAt(start: Table, us: seq<Update>, n: string)
    requires Sets(us) && us != []
    ensures (var u := us[|us| - 1];
             var was := Run(State([], start), us[..|us| - 1]).loggers;
             At(Run(State([], start), us).loggers, n)
             == if AppliedAt(us, n, |us| - 1) then Some(Applied(ViewOf(was, n), Find(u.next, n).value, u.d))
                else if Find(u.next, n).None? && Defined(us[..|us| - 1], n).Some? then Some(Retired(ViewOf(was, n)))
                else At(was, n))
  {
    hide Applied;
    var init := us[..|us| - 1];
    var s := Run(State([], start), init);
    ValueIsLast(start, init, n);
    UpdateAt(s, us[|us| - 1], n);
    FindGives(us[|us| - 1].next, n);
    FindGives(s.val, n);
  }

  lemma AppliedEarlier(us: seq<Update>, n: string, i: nat)
    requires us != [] && i < |us| - 1
    ensures AppliedAt(us, n, i) == AppliedAt(us[..|us| - 1], n, i)
  {
    assert us[..|us| - 1][..i] == us[..i];
  }

  lemma AppliedBefore(us: seq<Update>, n: string)
    requires us != []
    ensures forall i | 0 <= i < |us| - 1 :: AppliedAt(us, n, i) == AppliedAt(us[..|us| - 1], n, i)
  {
    forall i | 0 <= i < |us| - 1 ensures AppliedAt(us, n, i) == AppliedAt(us[..|us| - 1], n, i) {
      AppliedEarlier(us, n, i);
    }
  }

  /** Defined loggers have their level; names once defined but now absent are off and have
      no appenders; names never defined are untouched. */
  lemma {:induction false} LevelsAgree(start: Table, us: seq<Update>, n: string)
    requires Sets(us)
    ensures var t := Run(State([], start), us).loggers;
            && (Defined(us, n).Some? ==> n in t && t[n].level == Defined(us, n).value.level)
            && (Defined(us, n).None? && EverDefined(us, n) ==> n in t && t[n].level == UNKNOW && t[n].appenders == [])
            && (!EverDefined(us, n) ==> At(t, n) == At(start, n))
  {
    if us != [] {
      var init := us[..|us| - 1];
      LevelsAgree(start, init, n);
      RunAt(start, us, n);
      assert EverDefined(us, n) <==> EverDefined(init, n) || Find(us[|us| - 1].next, n).Some? by {
        assert forall i | 0 <= i < |init| :: us[i] == init[i];
      }
      assert Defined(init, n).Some? ==> EverDefined(init, n);
    }
  }

  /** A defined logger writes with its definition's formatter when that one parses. */
  lemma {:induction false} FormattersAgree(start: Table, us: seq<Update>, n: string)
    requires Sets(us) && Defined(us, n).Some?
    requires Defined(us, n).value.formatter != "" && !HasError(Parse(Defined(us, n).value.formatter))
    ensures n in Run(State([], start), us).loggers
    ensures Run(State([], start), us).loggers[n].pattern == Some(Defined(us, n).value.formatter)
  {
    hide Built, Run, Find, Parse, HasError;
    RunAt(start, us, n);
    if !AppliedAt(us, n, |us| - 1) {
      FormattersAgree(start, us[..|us| - 1], n);
    }
  }

  /** A defined logger has the appenders of the definition applied last. */
  lemma {:induction false} AppendersAgree(start: Table, us: seq<Update>, n: string) returns (i: nat)
    requires Sets(us) && Defined(us, n).Some?
    ensures LastApplied(us, n, i) && n in Run(State([], start), us).loggers
    ensures Run(State([], start), us).loggers[n].appenders == Built(Find(us[i].next, n).value.appenders, us[i].d)
  {
    hide Built, Run, Usable, Find, SameDefine;
    var k := |us| - 1;
    RunAt(start, us, n);
    if AppliedAt(us, n, k) {
      i := k;
    } else {
      AppliedBefore(us, n);
      i := AppendersAgree(start, us[..k], n);
    }
  }

  /** A logger's formatter is that of the last definition applied to it with one that parses,
      or, when there is none, the one it started with. */
  lemma {:induction false} PatternsAgree(start: Table, us: seq<Update>, n: string) returns (i: Option<nat>)
    requires Sets(us)
    ensures i.Some? ==> LastStyled(us, n, i.value)
    ensures i.None? ==> forall j | 0 <= j < |us| :: !StyledAt(us, n, j)
    ensures ViewOf(Run(State([], start), us).loggers, n).pattern
         == if i.Some? then Some(Find(us[i.value].next, n).value.formatter) else ViewOf(start, n).pattern
  {
    i := None;
    if us != [] {
      RunAt(start, us, n);
      if StyledAt(us, n, |us| - 1) {
        i := Some(|us| - 1);
      } else {
        i := PatternsAgree(start, us[..|us| - 1], n);
        StyledEarlier(us, n);
      }
    }
  }

  lemma StyledEarlier(us: seq<Update>, n: string)
    requires us != []
    ensures forall j | 0 <= j < |us| - 1 :: StyledAt(us, n, j) == StyledAt(us[..|us| - 1], n, j)
  {
    forall j | 0 <= j < |us| - 1 ensures StyledAt(us, n, j) == StyledAt(us[..|us| - 1], n, j) {
      AppliedEarlier(us, n, j);
    }
  }

  // ------------------------------------------------------- edits of appenders only

  /** What the last update asks of a name's appenders, with option `d` as it is then. */
  function Asked(us: seq<Update>, n: string): seq<AppenderView>
    requires Defined(us, n).Some?
  {
    Built(Defined(us, n).value.appenders, us[|us| - 1].d)
  }

  /** A defined logger has the appenders its current definition asks for exactly when the
      definition applied last, which may be an older one, asked for the same. */
  lemma AppendersAreCurrentExactlyWhen(start: Table, us: seq<Update>, n: string) returns (i: nat)
    requires Sets(us) && Defined(us, n).Some?
    ensures LastApplied(us, n, i) && n in Run(State([], start), us).loggers
    ensures Run(State([], start), us).loggers[n].appenders == Asked(us, n)
            <==> Built(Find(us[i].next, n).value.appenders, us[i].d) == Asked(us, n)
  {
    i := AppendersAgree(start, us, n);
  }

  /** The last update of a run gives a logger the appenders it asks for exactly when the name
      is new, its level changes or its formatter does, or the logger had those appenders
      already. */
  lemma EditArrivesExactlyWhen(start: Table, us: seq<Update>, n: string)
    requires Sets(us) && Defined(us, n).Some?
    ensures n in Run(State([], start), us).loggers
    ensures var was := Run(State([], start), us[..|us| - 1]).loggers;
            Run(State([], start), us).loggers[n].appenders == Asked(us, n)
            <==> || Defined(us[..|us| - 1], n).None?
                 || Defined(us[..|us| - 1], n).value.level != Defined(us, n).value.level
                 || Defined(us[..|us| - 1], n).value.formatter != Defined(us, n).value.formatter
                 || (n in was && was[n].appenders == Asked(us, n))
  {
    hide Built, Run, Find, AppliedAt, Asked, EverDefined;
    RunAt(start, us, n);
    LevelsAgree(start, us, n);
    LastIsApplied(us, n);
    AskedIs(us, n);
  }

  lemma AskedIs(us: seq<Update>, n: string)
    requires Defined(us, n).Some?
    ensures Find(us[|us| - 1].next, n).Some?
    ensures Asked(us, n) == Built(Find(us[|us| - 1].next, n).value.appenders, us[|us| - 1].d)
  {
  }

  lemma LastIsApplied(us: seq<Update>, n: string)
    requires Defined(us, n).Some?
    ensures var now, before := Defined(us, n).value, Defined(us[..|us| - 1], n);
            AppliedAt(us, n, |us| - 1)
            <==> before.None? || before.value.level != now.level || before.value.formatter != now.formatter
  {
  }

  /** Two definitions that differ in their appenders alone: the second update is dropped and
      the logger keeps the appenders of the first. */
  lemma AppenderEditsAreDropped(start: Table, a: LogDefine, b: LogDefine, d: bool, at: Line)
    requires SameDefine(a, b) && Built(a.appenders, d) != Built(b.appenders, d)
    ensures var us := [Update([a], d, at), Update([b], d, at)];
            var t := Run(State([], start), us).loggers;
            && Sets(us) && Defined(us, a.name) == Some(b)
            && a.name in t && t[a.name].appenders == Built(a.appenders, d)
            && t[a.name].appenders != Asked(us, a.name)
  {
    hide Built;
    var one, two := [Update([a], d, at)], [Update([a], d, at), Update([b], d, at)];
    assert two[..1] == one && one[..0] == [];
    assert Find([a], a.name) == Some(a) && Find([b], a.name) == Some(b);
    var i := AppendersAgree(start, two, a.name);
    assert AppliedAt(two, a.name, 0) && !AppliedAt(two, a.name, 1);
  }

  const FIRST: LogDefine := LogDefine("system", INFO, "", [AppenderDefine(1, UNKNOW, "", "a.txt")])
  const SECOND: LogDefine := LogDefine("system", INFO, "", [AppenderDefine(1, UNKNOW, "", "b.txt")])

  /** Such definitions exist: here another file for the only appender. */
  lemma AnotherFileIsIgnored(start: Table, d: bool, at: Line)
    ensures Buildable(FIRST) && Buildable(SECOND)
    ensures var us := [Update([FIRST], d, at), Update([SECOND], d, at)];
            var t := Run(State([], start), us).loggers;
            && "system" in t && t["system"].appenders == [AppenderView(1, "a.txt", UNKNOW, None)]
            && Defined(us, "system") == Some(SECOND)
            && Asked(us, "system") == [AppenderView(1, "b.txt", UNKNOW, None)]
  {
    OneFile(FIRST, "a.txt", d);
    OneFile(SECOND, "b.txt", d);
    assert "a.txt"[0] != "b.txt"[0];
    assert AppenderView(1, "a.txt", UNKNOW, None) != AppenderView(1, "b.txt", UNKNOW, None);
    AppenderEditsAreDropped(start, FIRST, SECOND, d, at);
  }

  lemma OneFile(def: LogDefine, file: string, d: bool)
    requires def.appenders == [AppenderDefine(1, UNKNOW, "", file)]
    ensures Built(def.appenders, d) == [AppenderView(1, file, UNKNOW, None)]
  {
    assert def.appenders[..0] == [];
    assert Built(def.appenders[..0], d) == [];
  }
}
