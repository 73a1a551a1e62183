/**
 The "logs" variable and its listener: how edits of the configuration reach live loggers
 (src/log.cc:677-683, 784-852; src/config.h:355-371).

 A std::set<LogDefine> is the sequence of its elements in ascending order of name.
 Whether option `d` is set is a parameter of each call.
 */
module LogConfig {
  import opened Wrappers
  import opened Yaml
  import opened Pattern
  import opened LogDefines
  import opened Loggers

  // --------------------------------------------------------- sets of definitions

  /** std::set::find. */
  function Find(s: seq<LogDefine>, name: string): Option<LogDefine> {
    if s == [] then None
    else if s[|s| - 1].name == name then Some(s[|s| - 1])
    else Find(s[..|s| - 1], name)
  }

  lemma {:induction false} FindGives(s: seq<LogDefine>, n: string)
    ensures Find(s, n).Some? ==> Find(s, n).value in s && Find(s, n).value.name == n
    ensures Find(s, n).None? ==> forall x | x in s :: x.name != n
  {
    if s != [] && s[|s| - 1].name != n {
      FindGives(s[..|s| - 1], n);
    }
  }

  /** std::set's ==: the same size and pairwise equal elements. */
  predicate SetEqual(a: seq<LogDefine>, b: seq<LogDefine>) {
    |a| == |b| && forall i | 0 <= i < |a| :: SameDefine(a[i], b[i])
  }

  /** The types the listener can build an appender for. */
  predicate Buildable(d: LogDefine) {
    forall i | 0 <= i < |d.appenders| :: d.appenders[i].kind in {1, 2}
  }

  /** What the casts yield for "logs" is a set the listener can build. */
  lemma ReadIsBuildable(n: Node)
    requires ReadSet(n).Some?
    ensures DefineSet(ReadSet(n).value)
    ensures forall i | 0 <= i < |ReadSet(n).value| :: Buildable(ReadSet(n).value[i])
  {
    SetIsStable(n);
    var s := ReadSet(n).value;
    forall i, j | 0 <= i < |s| && 0 <= j < |s[i].appenders| ensures s[i].appenders[j].kind in {1, 2} {
      assert Representable(s[i]) && s[i].appenders[j] in s[i].appenders;
    }
  }

  // ------------------------------------------------------- applying a definition

  predicate Usable(pattern: string) {
    pattern != "" && !HasError(Parse(pattern))
  }

  function BuiltOne(a: AppenderDefine): AppenderView {
    AppenderView(a.kind, if a.kind == 1 then a.file else "", a.level,
                 if Usable(a.formatter) then Some(a.formatter) else None)
  }

  /** The appenders of a definition; those for the console are left out when `d` is set. */
  function Built(apps: seq<AppenderDefine>, d: bool): seq<AppenderView> {
    if apps == [] then []
    else
      var init := Built(apps[..|apps| - 1], d);
      var last := apps[|apps| - 1];
      if last.kind == 2 && d then init else init + [BuiltOne(last)]
  }

  lemma BuiltEnd(apps: seq<AppenderDefine>, a: AppenderDefine, d: bool)
    ensures Built(apps + [a], d) == Built(apps, d) + if a.kind == 2 && d then [] else [BuiltOne(a)]
  {
    hide BuiltOne;
    assert (apps + [a])[..|apps|] == apps;
  }

  /** An appender is built as its definition says. */
  predicate BuiltAs(v: AppenderView, a: AppenderDefine) {
    && v.kind == a.kind && v.level == a.level && v.file == (if a.kind == 1 then a.file else "")
    && v.own == if a.formatter != "" && !HasError(Parse(a.formatter)) then Some(a.formatter) else None
  }

  /** The positions from which appenders are built: all of them, or with `d` those that are not
      for the console; in order. */
  predicate BuiltFrom(ps: seq<nat>, apps: seq<AppenderDefine>, d: bool) {
    && (forall i, j | 0 <= i < j < |ps| :: ps[i] < ps[j])
    && (forall i | 0 <= i < |ps| :: ps[i] < |apps|)
    && (forall p | 0 <= p < |apps| :: p in ps <==> !(d && apps[p].kind == 2))
  }

  lemma {:induction false} BuiltExactly(apps: seq<AppenderDefine>, d: bool) returns (ps: seq<nat>)
    ensures BuiltFrom(ps, apps, d) && |Built(apps, d)| == |ps|
    ensures forall i | 0 <= i < |ps| :: ps[i] < |apps| && BuiltAs(Built(apps, d)[i], apps[ps[i]])
  {
    hide Built, BuiltAs, BuiltFrom, BuiltOne;
    ps := [];
    if apps == [] {
      NothingBuilt(d);
      FromNothing(d);
    } else {
      var init, last := apps[..|apps| - 1], apps[|apps| - 1];
      ps := BuiltExactly(init, d);
      assert apps == init + [last];
      BuiltEnd(init, last, d);
      BuiltOneAs(last);
      FromEnd(ps, init, last, d);
      FromInside(ps, init, d);
      if !(last.kind == 2 && d) {
        ps := ps + [|init|];
      }
    }
  }

  lemma FromNothing(d: bool)
    ensures BuiltFrom([], [], d)
  {
  }

  lemma FromInside(ps: seq<nat>, apps: seq<AppenderDefine>, d: bool)
    requires BuiltFrom(ps, apps, d)
    ensures forall i | 0 <= i < |ps| :: ps[i] < |apps|
  {
  }

  lemma FromEnd(ps: seq<nat>, init: seq<AppenderDefine>, last: AppenderDefine, d: bool)
    requires BuiltFrom(ps, init, d)
    ensures last.kind == 2 && d ==> BuiltFrom(ps, init + [last], d)
    ensures !(last.kind == 2 && d) ==> BuiltFrom(ps + [|init|], init + [last], d)
  {
    var apps := init + [last];
    assert forall p | 0 <= p < |init| :: apps[p] == init[p];
    assert forall p | p in ps :: p < |init|;
    var more := ps + [|init|];
    assert forall p :: p in more <==> p in ps || p == |init|;
  }

  lemma BuiltOneAs(a: AppenderDefine)
    ensures BuiltAs(BuiltOne(a), a)
  {
  }

  function Applied(v: LoggerView, def: LogDefine, d: bool): LoggerView {
    LoggerView(def.level, if Usable(def.formatter) then Some(def.formatter) else v.pattern,
               Built(def.appenders, d))
  }

  function Retired(v: LoggerView): LoggerView {
    LoggerView(UNKNOW, v.pattern, [])
  }

  method BuildAppender(a: AppenderDefine) returns (ap: LogAppender)
    requires a.kind in {1, 2}
    ensures fresh(ap) && ap.View() == BuiltOne(a) && ap.sink == []
    ensures (ap.m_formatter != null <==> ap.m_hasFormatter) && (ap.m_formatter != null ==> ap.m_formatter.Sound())
  {
    if a.kind == 1 {
      ap := new LogAppender(1, a.file);
    } else {
      ap := new LogAppender(2, "");
    }
    ap.m_level := a.level;
    if a.formatter != "" {
      var f := new LogFormatter(a.formatter);
      if !f.m_error {
        ap.SetFormatter(f);
      }
    }
  }

  method AddOne(l: Logger, a: AppenderDefine)
    requires l.Tidy() && a.kind in {1, 2}
    modifies l`m_appenders
    ensures l.Tidy() && ViewsOf(l.m_appenders) == old(ViewsOf(l.m_appenders)) + [BuiltOne(a)]
    ensures exists ap :: l.m_appenders == old(l.m_appenders) + [ap] && fresh(ap) && ap.sink == []
  {
    hide ViewsOf, BuiltOne, LogFormatter.Sound;
    var ap := BuildAppender(a);
    ghost var before := l.m_appenders;
    l.AddAppender(ap);
    ViewsStay(before);
    ViewsOfEnd(before, ap);
  }

  lemma NothingBuilt(d: bool)
    ensures Built([], d) == []
  {
  }

  method AddAll(l: Logger, apps: seq<AppenderDefine>, d: bool)
    requires l.Tidy() && l.m_appenders == []
    requires forall i | 0 <= i < |apps| :: apps[i].kind in {1, 2}
    modifies l`m_appenders
    ensures l.Tidy() && ViewsOf(l.m_appenders) == Built(apps, d)
    ensures forall a | a in l.m_appenders :: fresh(a) && a.sink == []
  {
    hide ViewsOf, BuiltOne, Logger.Tidy;
    NothingBuilt(d);
    var i := 0;
    while i < |apps|
      invariant 0 <= i <= |apps|
      invariant l.Tidy() && ViewsOf(l.m_appenders) == Built(apps[..i], d)
      invariant forall a | a in l.m_appenders :: fresh(a) && a.sink == []
    {
      assert apps[..i + 1][..i] == apps[..i];
      if !(apps[i].kind == 2 && d) {
        AddOne(l, apps[i]);
      }
      i := i + 1;
    }
    assert apps[..i] == apps;
  }

  /** A logger after its definition was applied. */
  method ApplyDefine(l: Logger, def: LogDefine, d: bool)
    requires l.Tidy() && Buildable(def)
    modifies l.Objects()
    ensures l.Tidy() && l.m_root == old(l.m_root)
    ensures fresh(l.Objects() - old(l.Objects()))
    ensures forall a | a in old(l.m_appenders) :: a.sink == old(a.sink)
    ensures forall a | a in l.m_appenders && a !in old(l.m_appenders) :: fresh(a) && a.sink == []
    ensures l.View() == Applied(old(l.View()), def, d)
  {
    hide Parse, HasError, Built, ViewsOf;
    l.m_level := def.level;
    if def.formatter != "" {
      l.SetPattern(def.formatter);
    }
    l.ClearAppenders();
    AddAll(l, def.appenders, d);
  }

  // ------------------------------------------------------------- on the manager

  method ApplyOn(m: LoggerManager, l: Logger, def: LogDefine, d: bool)
    requires m.Valid() && m.Files(l) && Buildable(def)
    modifies m`owner, l.Objects()
    ensures m.Valid() && old(m.owner.Keys) <= m.owner.Keys && fresh(m.owner.Keys - old(m.owner.Keys))
    ensures m.View() == old(m.View())[l.m_name := Applied(old(l.View()), def, d)]
    ensures forall a: LogAppender | a in old(m.owner) :: a.sink == old(a.sink)
    ensures forall a: LogAppender | a in m.owner && a !in old(m.owner) :: a.sink == []
  {
    hide Applied, Logger.Tidy, Logger.View, Buildable, ROOT;
    m.OwnsObjects(l);
    ApplyDefine(l, def, d);
    ghost var v := l.View();
    m.Adopt(l);
    assert l.View() == v;
    assert m.Filed(l.m_name, l);
    m.Confined(l);
  }

  method ApplyTo(m: LoggerManager, l: Logger, def: LogDefine, d: bool)
    requires m.Valid() && m.Files(l) && Buildable(def)
    modifies m`owner, l.Objects()
    ensures m.Valid() && fresh(m.owner.Keys - old(m.owner.Keys))
    ensures m.View() == old(m.View())[l.m_name := Applied(old(l.View()), def, d)]
    ensures Grown(old(m.Written()), [], m.Written())
  {
    hide LoggerManager.Valid, LoggerManager.View, LoggerManager.Written, Logger.View, Applied, Grown;
    ApplyOn(m, l, def, d);
    m.GrownFrom([]);
  }

  method Configure(m: LoggerManager, def: LogDefine, d: bool)
    requires m.Valid() && Buildable(def)
    modifies m, m.owner.Keys
    ensures m.Valid() && fresh(m.owner.Keys - old(m.owner.Keys))
    ensures m.View() == old(m.View())[def.name := Applied(ViewOf(old(m.View()), def.name), def, d)]
    ensures Grown(old(m.Written()), [], m.Written())
  {
    hide LoggerManager.Valid, LoggerManager.View, LoggerManager.Written, Logger.View, ViewOf, Applied, Grown;
    ghost var t, keys := m.View(), m.owner.Keys;
    var l := m.GetLogger(def.name);
    m.OwnsObjects(l);
    ghost var keys1 := m.owner.Keys;
    ApplyTo(m, l, def, d);
    UpdateTwice(t, def.name, ViewOf(t, def.name), Applied(ViewOf(t, def.name), def, d));
    assert m.owner.Keys - keys <= (m.owner.Keys - keys1) + (keys1 - keys);
  }

  method RetireOn(m: LoggerManager, l: Logger)
    requires m.Valid() && m.Files(l)
    modifies m`owner, l
    ensures m.Valid() && m.owner.Keys == old(m.owner.Keys)
    ensures m.View() == old(m.View())[l.m_name := Retired(old(l.View()))]
  {
    m.OwnsObjects(l);
    l.m_level := UNKNOW;
    l.ClearAppenders();
    m.Adopt(l);
    assert m.Filed(l.m_name, l);
    m.Confined(l);
  }

  method RetireTo(m: LoggerManager, l: Logger)
    requires m.Valid() && m.Files(l)
    modifies m`owner, l
    ensures m.Valid() && m.owner.Keys == old(m.owner.Keys)
    ensures m.View() == old(m.View())[l.m_name := Retired(old(l.View()))]
    ensures Grown(old(m.Written()), [], m.Written())
  {
    hide LoggerManager.Valid, LoggerManager.View, LoggerManager.Written, Logger.View, Retired, Grown;
    RetireOn(m, l);
    m.GrownFrom([]);
  }

  method Retire(m: LoggerManager, name: string)
    requires m.Valid()
    modifies m, m.owner.Keys
    ensures m.Valid() && fresh(m.owner.Keys - old(m.owner.Keys))
    ensures m.View() == old(m.View())[name := Retired(ViewOf(old(m.View()), name))]
    ensures Grown(old(m.Written()), [], m.Written())
  {
    hide LoggerManager.Valid, LoggerManager.View, LoggerManager.Written, Logger.View, ViewOf, Retired, Grown;
    ghost var t := m.View();
    var l := m.GetLogger(name);
    m.OwnsObjects(l);
    RetireTo(m, l);
    UpdateTwice(t, name, ViewOf(t, name), Retired(ViewOf(t, name)));
  }

  // ------------------------------------------------------------------- the listener

  /** Whether the listener treats a definition of the new set as new or changed. */
  predicate Changed(prev: seq<LogDefine>, def: LogDefine) {
    var it := Find(prev, def.name);
    it.None? || it.value.level != def.level || it.value.formatter != def.formatter
  }

  function EditAll(t: Table, prev: seq<LogDefine>, next: seq<LogDefine>, d: bool): Table {
    if next == [] then t
    else
      var init := EditAll(t, prev, next[..|next| - 1], d);
      var def := next[|next| - 1];
      if Changed(prev, def) then init[def.name := Applied(ViewOf(init, def.name), def, d)] else init
  }

  function RemoveAll(t: Table, prev: seq<LogDefine>, next: seq<LogDefine>): Table {
    if prev == [] then t
    else
      var init := RemoveAll(t, prev[..|prev| - 1], next);
      var def := prev[|prev| - 1];
      if Find(next, def.name).None? then init[def.name := Retired(ViewOf(init, def.name))] else init
  }

  method EditLoggers(m: LoggerManager, prev: seq<LogDefine>, next: seq<LogDefine>, d: bool)
    requires m.Valid() && forall i | 0 <= i < |next| :: Buildable(next[i])
    modifies m, m.owner.Keys
    ensures m.Valid() && fresh(m.owner.Keys - old(m.owner.Keys))
    ensures m.View() == EditAll(old(m.View()), prev, next, d)
    ensures Grown(old(m.Written()), [], m.Written())
  {
    hide LoggerManager.View, LoggerManager.Valid, LoggerManager.Written, Applied, Grown;
    NothingWritten(m.Written());
    var i := 0;
    while i < |next|
      invariant 0 <= i <= |next|
      invariant m.Valid() && fresh(m.owner.Keys - old(m.owner.Keys))
      invariant m.View() == EditAll(old(m.View()), prev, next[..i], d)
      invariant Grown(old(m.Written()), [], m.Written())
    {
      ghost var before := m.Written();
      assert next[..i + 1][..i] == next[..i];
      var it := Find(prev, next[i].name);
      FindGives(prev, next[i].name);
      if it.None? || !SameDefine(next[i], it.value) {
        Configure(m, next[i], d);
        GrownStill(old(m.Written()), [], before, m.Written());
      }
      i := i + 1;
    }
    assert next[..i] == next;
  }

  method RemoveLoggers(m: LoggerManager, prev: seq<LogDefine>, next: seq<LogDefine>)
    requires m.Valid()
    modifies m, m.owner.Keys
    ensures m.Valid() && fresh(m.owner.Keys - old(m.owner.Keys))
    ensures m.View() == RemoveAll(old(m.View()), prev, next)
    ensures Grown(old(m.Written()), [], m.Written())
  {
    hide LoggerManager.View, LoggerManager.Valid, LoggerManager.Written, Grown;
    NothingWritten(m.Written());
    var i := 0;
    while i < |prev|
      invariant 0 <= i <= |prev|
      invariant m.Valid() && fresh(m.owner.Keys - old(m.owner.Keys))
      invariant m.View() == RemoveAll(old(m.View()), prev[..i], next)
      invariant Grown(old(m.Written()), [], m.Written())
    {
      ghost var before := m.Written();
      assert prev[..i + 1][..i] == prev[..i];
      if Find(next, prev[i].name).None? {
        Retire(m, prev[i].name);
        GrownStill(old(m.Written()), [], before, m.Written());
      }
      i := i + 1;
    }
    assert prev[..i] == prev;
  }

  // ------------------------------------------------------- the variable and its runs

  /** What ConfigVar<set<LogDefine>> and the manager hold. */
  datatype State = State(val: seq<LogDefine>, loggers: Table)

  /** One setValue, whether option `d` is set then, and where and when the listener logs. */
  datatype Update = Update(next: seq<LogDefine>, d: bool, at: Line)

  const CHANGED: string := "on_logger_conf_changed"

  /** What setValue writes: unless the value is an equal one, the listener logs a line to the
      root logger before it edits any. */
  function Announced(s: State, u: Update): seq<string> {
    if SetEqual(u.next, s.val) then [] else Emitted(s.loggers, ROOT, INFO, u.at.(content := CHANGED))
  }

  function SetValueSpec(s: State, u: Update): State {
    if SetEqual(u.next, s.val) then s
    else State(u.next, RemoveAll(EditAll(s.loggers, s.val, u.next, u.d), s.val, u.next))
  }

  function Run(s: State, us: seq<Update>): State {
    if us == [] then s else SetValueSpec(Run(s, us[..|us| - 1]), us[|us| - 1])
  }

  /** What a program does with the logs: update their configuration or use a logger. */
  datatype Action = Set(u: Update) | Ask(r: Request)

  predicate Doable(act: Action) {
    act.Set? ==> forall i | 0 <= i < |act.u.next| :: Buildable(act.u.next[i])
  }

  function Acted(s: State, act: Action): State {
    match act
    case Set(u) => SetValueSpec(s, u)
    case Ask(r) => s.(loggers := Handled(s.loggers, r))
  }

  function Uttered(s: State, act: Action): seq<string> {
    match act
    case Set(u) => Announced(s, u)
    case Ask(r) => if r.Log? then Emitted(s.loggers, r.name, r.level, r.line) else []
  }

  function AllAnnounced(s: State, us: seq<Update>): seq<string> {
    if us == [] then []
    else AllAnnounced(s, us[..|us| - 1]) + Announced(Run(s, us[..|us| - 1]), us[|us| - 1])
  }

  function Performed(s: State, acts: seq<Action>): State {
    if acts == [] then s else Acted(Performed(s, acts[..|acts| - 1]), acts[|acts| - 1])
  }

  function AllUttered(s: State, acts: seq<Action>): seq<string> {
    if acts == [] then []
    else AllUttered(s, acts[..|acts| - 1]) + Uttered(Performed(s, acts[..|acts| - 1]), acts[|acts| - 1])
  }

  class LogsVar {
    const manager: LoggerManager
    var m_val: seq<LogDefine>

    constructor (manager: LoggerManager)
      ensures this.manager == manager && m_val == []
    {
      this.manager := manager;
      m_val := [];
    }

    ghost predicate Valid()
      reads this, manager, manager.owner.Keys
    {
      manager.Valid() && this !in manager.owner
    }

    ghost function Now(): State
      requires Valid()
      reads this, manager, manager.owner.Keys
    {
      State(m_val, manager.View())
    }

    /** The listener of "logs". */
    method OnChange(oldValue: seq<LogDefine>, newValue: seq<LogDefine>, d: bool, at: Line) returns (out: seq<Delivery>)
      requires manager.Valid() && forall i | 0 <= i < |newValue| :: Buildable(newValue[i])
      modifies manager, manager.owner.Keys
      ensures manager.Valid() && fresh(manager.owner.Keys - old(manager.owner.Keys))
      ensures manager.View() == RemoveAll(EditAll(old(manager.View()), oldValue, newValue, d), oldValue, newValue)
      ensures Texts(out) == Emitted(old(manager.View()), ROOT, INFO, at.(content := CHANGED))
      ensures Grown(old(manager.Written()), out, manager.Written())
    {
      hide LoggerManager.View, LoggerManager.Written, Grown, Emitted, EditAll, RemoveAll, CHANGED, ROOT, LoggerManager.Valid;
      out := LogToRoot(INFO, at.(content := CHANGED));
      ghost var logged := manager.Written();
      EditLoggers(manager, oldValue, newValue, d);
      ghost var edited := manager.Written();
      RemoveLoggers(manager, oldValue, newValue);
      GrownStill(logged, [], edited, manager.Written());
      GrownStill(old(manager.Written()), out, logged, manager.Written());
    }

    method LogToRoot(level: Level, line: Line) returns (out: seq<Delivery>)
      requires manager.Valid()
      modifies manager.owner.Keys
      ensures manager.Valid() && manager.owner == old(manager.owner) && manager.View() == old(manager.View())
      ensures Texts(out) == Emitted(old(manager.View()), ROOT, level, line)
      ensures Grown(old(manager.Written()), out, manager.Written())
    {
      hide LoggerManager.View, LoggerManager.Written, Grown, Emitted, ROOT;
      manager.NameIsKey(ROOT);
      manager.ServingIsOwned(manager.m_root, level);
      out := manager.LogOn(manager.m_root, level, line);
    }

    /** setValue, with the listener as the only one. */
    method SetValue(v: seq<LogDefine>, d: bool, at: Line) returns (out: seq<Delivery>)
      requires Valid() && forall i | 0 <= i < |v| :: Buildable(v[i])
      modifies this, manager, manager.owner.Keys
      ensures Valid() && fresh(manager.owner.Keys - old(manager.owner.Keys))
      ensures Now() == SetValueSpec(old(Now()), Update(v, d, at))
      ensures Texts(out) == Announced(old(Now()), Update(v, d, at))
      ensures Grown(old(manager.Written()), out, manager.Written())
    {
      hide LoggerManager.View, LoggerManager.Valid, LoggerManager.Written, Grown, Emitted, EditAll, RemoveAll, CHANGED, ROOT;
      out := [];
      NothingWritten(manager.Written());
      if SetEqual(v, m_val) {
        return;
      }
      out := OnChange(m_val, v, d, at);
      m_val := v;
    }

    /** Any sequence of setValues. */
    method SetValues(us: seq<Update>) returns (out: seq<Delivery>)
      requires Valid() && forall i, j | 0 <= i < |us| && 0 <= j < |us[i].next| :: Buildable(us[i].next[j])
      modifies this, manager, manager.owner.Keys
      ensures Valid() && fresh(manager.owner.Keys - old(manager.owner.Keys))
      ensures Now() == Run(old(Now()), us)
      ensures Texts(out) == AllAnnounced(old(Now()), us)
      ensures Grown(old(manager.Written()), out, manager.Written())
      decreases |us|
    {
      hide LoggerManager.View, LoggerManager.Valid, LoggerManager.Written, Grown, Announced, SetValueSpec;
      out := [];
      NothingWritten(manager.Written());
      if us != [] {
        ghost var before := manager.Written();
        var first := SetValues(us[..|us| - 1]);
        ghost var between := manager.Written();
        var last := SetValue(us[|us| - 1].next, us[|us| - 1].d, us[|us| - 1].at);
        out := first + last;
        GrownTwice(before, first, between, last, manager.Written());
        assert Texts(out) == Texts(first) + Texts(last);
      }
    }

    method Act(act: Action) returns (out: seq<Delivery>)
      requires Valid() && Doable(act)
      modifies this, manager, manager.owner.Keys
      ensures Valid() && fresh(manager.owner.Keys - old(manager.owner.Keys))
      ensures Now() == Acted(old(Now()), act)
      ensures Texts(out) == Uttered(old(Now()), act)
      ensures Grown(old(manager.Written()), out, manager.Written())
    {
      hide LoggerManager.View, LoggerManager.Valid, LoggerManager.Written, Grown, Handled, Emitted, Announced, SetValueSpec;
      out := [];
      match act
      case Set(u) => out := SetValue(u.next, u.d, u.at);
      case Ask(r) => out := manager.Handle(r);
    }

    /** Updates of the configuration, calls on loggers and log statements in any order: the
        loggers, the stored set and all texts written are what the specification gives, and
        every appender, attached or not, has written exactly what was delivered to it. */
    method Perform(acts: seq<Action>) returns (out: seq<Delivery>)
      requires Valid() && forall i | 0 <= i < |acts| :: Doable(acts[i])
      modifies this, manager, manager.owner.Keys
      ensures Valid() && fresh(manager.owner.Keys - old(manager.owner.Keys))
      ensures Now() == Performed(old(Now()), acts)
      ensures Texts(out) == AllUttered(old(Now()), acts)
      ensures Grown(old(manager.Written()), out, manager.Written())
      decreases |acts|
    {
      hide LoggerManager.View, LoggerManager.Valid, LoggerManager.Written, Grown, Acted, Uttered;
      out := [];
      NothingWritten(manager.Written());
      if acts != [] {
        ghost var before := manager.Written();
        var first := Perform(acts[..|acts| - 1]);
        ghost var between := manager.Written();
        var last := Act(acts[|acts| - 1]);
        out := first + last;
        GrownTwice(before, first, between, last, manager.Written());
        assert Texts(out) == Texts(first) + Texts(last);
      }
    }
  }
}
