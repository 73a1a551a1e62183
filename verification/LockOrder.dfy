/**
 The locks of the logging and configuration code, as the scoped guards of src/mutex.h
 take them, and freedom from deadlock for any number of threads.

 `CodeOf` gives, for each public operation, the nest of guards it goes through; what an
 operation reads at run time (levels, lists of appenders, whether a value changed)
 is a parameter of the operation, so every outcome is covered.
 */
module LockOrder {

  datatype Lock =
    | ConfigMutex            // Config::GetMutex
    | VarMutex(v: nat)       // ConfigVar::m_mutex
    | ManagerMutex           // LoggerManager::m_mutex
    | LoggerMutex(l: nat)    // Logger::m_mutex, other than the root logger's
    | RootMutex              // the root logger's
    | AppenderMutex(a: nat)  // LogAppender::m_mutex
    | EnvMutex               // Env::m_mutex

  datatype Mode = Shared | Exclusive

  function Rank(l: Lock): nat {
    match l
    case ConfigMutex => 6
    case VarMutex(_) => 5
    case ManagerMutex => 4
    case LoggerMutex(_) => 3
    case RootMutex => 2
    case AppenderMutex(_) => 1
    case EnvMutex => 0
  }

  const TOP: nat := 7

  // -------------------------------------------------------- guards and code

  /** A block of code, as far as locks go.  `Guard` is a scoped lock and its scope. */
  datatype Code =
    | Nop
    | Then(first: Code, second: Code)
    | Guard(lock: Lock, mode: Mode, body: Code)

  datatype Action = Acquire(lock: Lock, mode: Mode) | Release(lock: Lock)

  function Flatten(c: Code): seq<Action> {
    match c
    case Nop => []
    case Then(a, b) => Flatten(a) + Flatten(b)
    case Guard(l, m, body) => [Acquire(l, m)] + Flatten(body) + [Release(l)]
  }

  function All(cs: seq<Code>): Code {
    if cs == [] then Nop else Then(cs[0], All(cs[1..]))
  }

  // ---------------------------------------------------------------- operations

  datatype LoggerRef = Root | Named(l: nat)

  function MutexOf(l: LoggerRef): Lock {
    match l
    case Root => RootMutex
    case Named(n) => LoggerMutex(n)
  }

  /** An appender an event is offered to, and whether it passes the appender's level. */
  datatype Offer = Offer(a: nat, passes: bool)

  function EachAppender(apps: seq<nat>): Code {
    if apps == [] then Nop
    else Then(Guard(AppenderMutex(apps[0]), Exclusive, Nop), EachAppender(apps[1..]))
  }

  function OfferAll(offers: seq<Offer>): Code {
    if offers == [] then Nop
    else
      Then(if offers[0].passes then Guard(AppenderMutex(offers[0].a), Exclusive, Nop) else Nop,
           OfferAll(offers[1..]))
  }

  /** A log statement on the root logger. */
  function LogRoot(accepted: bool, offers: seq<Offer>): Code {
    if accepted then Guard(RootMutex, Exclusive, OfferAll(offers)) else Nop
  }

  /** Logger::log on a named logger: its appenders, or the root logger when it has none. */
  function LogNamed(l: nat, accepted: bool, offers: seq<Offer>, rootAccepted: bool, rootOffers: seq<Offer>): Code {
    if !accepted then Nop
    else
      Guard(LoggerMutex(l), Exclusive,
            if offers != [] then OfferAll(offers) else LogRoot(rootAccepted, rootOffers))
  }

  /** One run-time choice for a log statement on the root logger. */
  datatype RootLine = RootLine(accepted: bool, offers: seq<Offer>)

  function Line(r: RootLine): Code {
    LogRoot(r.accepted, r.offers)
  }

  /** What LogIniter's listener does for one definition of the new set. */
  datatype Edit = Edit(logger: LoggerRef, setsFormatter: bool, attached: seq<nat>, appenders: seq<AppenderEdit>)

  /** A new appender: a file one locks itself in reopen(), a console one asks Env for "d". */
  datatype AppenderEdit = FileEdit(a: nat, hasFormatter: bool, inherits: bool)
                        | StdoutEdit(a: nat, skipped: bool, hasFormatter: bool, inherits: bool)

  /** Logger::addAppender: getFormatter of the appender, then its formatter when it has none. */
  function AddAppender(l: LoggerRef, a: nat, inherits: bool): Code {
    Guard(MutexOf(l), Exclusive,
          Then(Guard(AppenderMutex(a), Exclusive, Nop),
               if inherits then Guard(AppenderMutex(a), Exclusive, Nop) else Nop))
  }

  function SetLoggerFormatter(l: LoggerRef, apps: seq<nat>): Code {
    Guard(MutexOf(l), Exclusive, EachAppender(apps))
  }

  function AppenderEditCode(l: LoggerRef, e: AppenderEdit): Code {
    match e
    case FileEdit(a, hasFormatter, inherits) =>
      Then(Guard(AppenderMutex(a), Exclusive, Nop),
           Then(if hasFormatter then Guard(AppenderMutex(a), Exclusive, Nop) else Nop,
                AddAppender(l, a, inherits)))
    case StdoutEdit(a, skipped, hasFormatter, inherits) =>
      Then(Guard(EnvMutex, Shared, Nop),
           if skipped then Nop
           else Then(if hasFormatter then Guard(AppenderMutex(a), Exclusive, Nop) else Nop,
                     AddAppender(l, a, inherits)))
  }

  function AppenderEdits(l: LoggerRef, es: seq<AppenderEdit>): Code {
    if es == [] then Nop else Then(AppenderEditCode(l, es[0]), AppenderEdits(l, es[1..]))
  }

  /** getLogger, setFormatter, clearAppenders and one addAppender for each appender. */
  function EditCode(e: Edit): Code {
    Then(Guard(ManagerMutex, Exclusive, Nop),
         Then(if e.setsFormatter then SetLoggerFormatter(e.logger, e.attached) else Nop,
              Then(Guard(MutexOf(e.logger), Exclusive, Nop), AppenderEdits(e.logger, e.appenders))))
  }

  function Edits(es: seq<Edit>): Code {
    if es == [] then Nop else Then(EditCode(es[0]), Edits(es[1..]))
  }

  /** getLogger and clearAppenders for each logger that is no longer defined. */
  function Removals(ls: seq<LoggerRef>): Code {
    if ls == [] then Nop
    else Then(Guard(ManagerMutex, Exclusive, Nop),
              Then(Guard(MutexOf(ls[0]), Exclusive, Nop), Removals(ls[1..])))
  }

  /** The listener of LogIniter. */
  datatype Listener = Listener(line: RootLine, edits: seq<Edit>, removed: seq<LoggerRef>)

  function Listen(l: Listener): Code {
    Then(Line(l.line), Then(Edits(l.edits), Removals(l.removed)))
  }

  /** ConfigVar::setValue: compare and notify under the read lock, then write. */
  function SetValue(v: nat, changed: bool, listeners: seq<Listener>): Code {
    Then(Guard(VarMutex(v), Shared, if changed then All(Listens(listeners)) else Nop),
         if changed then Guard(VarMutex(v), Exclusive, Nop) else Nop)
  }

  function Listens(ls: seq<Listener>): seq<Code> {
    if ls == [] then [] else [Listen(ls[0])] + Listens(ls[1..])
  }

  function ToYaml(l: LoggerRef, apps: seq<nat>): Code {
    Guard(MutexOf(l), Exclusive, EachAppender(apps))
  }

  function ToYamlAll(ls: seq<(LoggerRef, seq<nat>)>): Code {
    if ls == [] then Nop else Then(ToYaml(ls[0].0, ls[0].1), ToYamlAll(ls[1..]))
  }

  /** Outcome of Lookup with a default value. */
  datatype Found = Same | OtherType(v: nat, castFails: bool, castLine: RootLine) | Absent(validName: bool)

  /** One entry of a loaded tree: lines of ListAllMember, LookupBase, then fromString. */
  datatype Entry = Entry(lines: seq<RootLine>, found: bool, converts: bool, v: nat, changed: bool,
                         listeners: seq<Listener>, failure: RootLine)

  function Lines(rs: seq<RootLine>): Code {
    if rs == [] then Nop else Then(Line(rs[0]), Lines(rs[1..]))
  }

  function LoadEntry(e: Entry): Code {
    Then(Lines(e.lines),
         Then(Guard(ConfigMutex, Shared, Nop),
              if !e.found then Nop
              else if e.converts then SetValue(e.v, e.changed, e.listeners)
              else Line(e.failure)))
  }

  function LoadEntries(es: seq<Entry>): Code {
    if es == [] then Nop else Then(LoadEntry(es[0]), LoadEntries(es[1..]))
  }

  datatype Operation =
    | LogTo(l: nat, accepted: bool, offers: seq<Offer>, rootAccepted: bool, rootOffers: seq<Offer>)
    | LogToRoot(line: RootLine)
    | SetFormatter(logger: LoggerRef, apps: seq<nat>)
    | SetAppenderFormatter(a: nat)
    | Add(logger: LoggerRef, a: nat, inherits: bool)
    | DelOrClear(logger: LoggerRef)
    | LoggerToYaml(logger: LoggerRef, apps: seq<nat>)
    | ManagerToYaml(all: seq<(LoggerRef, seq<nat>)>)
    | GetLogger
    | GetValue(v: nat)
    | EditListeners(v: nat)
    | Set(v: nat, changed: bool, listeners: seq<Listener>)
    | LookupOrCreate(found: Found, line: RootLine)
    | LookupOnly
    | Load(entries: seq<Entry>)
    | EnvRead
    | EnvWrite

  function CodeOf(op: Operation): Code {
    match op
    case LogTo(l, accepted, offers, rootAccepted, rootOffers) => LogNamed(l, accepted, offers, rootAccepted, rootOffers)
    case LogToRoot(line) => Line(line)
    case SetFormatter(l, apps) => SetLoggerFormatter(l, apps)
    case SetAppenderFormatter(a) => Guard(AppenderMutex(a), Exclusive, Nop)
    case Add(l, a, inherits) => AddAppender(l, a, inherits)
    case DelOrClear(l) => Guard(MutexOf(l), Exclusive, Nop)
    case LoggerToYaml(l, apps) => ToYaml(l, apps)
    case ManagerToYaml(ls) => Guard(ManagerMutex, Exclusive, ToYamlAll(ls))
    case GetLogger => Guard(ManagerMutex, Exclusive, Nop)
    case GetValue(v) => Guard(VarMutex(v), Shared, Nop)
    case EditListeners(v) => Guard(VarMutex(v), Exclusive, Nop)
    case Set(v, changed, listeners) => SetValue(v, changed, listeners)
    case LookupOrCreate(found, line) =>
      Guard(ConfigMutex, Exclusive,
            match found
            case Same => Line(line)
            case OtherType(v, castFails, castLine) =>
              Then(Guard(VarMutex(v), Shared, Nop), Then(if castFails then Line(castLine) else Nop, Line(line)))
            case Absent(validName) => if validName then Nop else Line(line))
    case LookupOnly => Guard(ConfigMutex, Shared, Nop)
    case Load(entries) => LoadEntries(entries)
    case EnvRead => Guard(EnvMutex, Shared, Nop)
    case EnvWrite => Guard(EnvMutex, Exclusive, Nop)
  }

  // ------------------------------------------------------- what is taken, and when

  /** The locks acquired, in order. */
  function Acquired(actions: seq<Action>): seq<Lock> {
    if actions == [] then []
    else (if actions[0].Acquire? then [actions[0].lock] else []) + Acquired(actions[1..])
  }

  lemma {:induction false} AcquiredConcat(a: seq<Action>, b: seq<Action>)
    ensures Acquired(a + b) == Acquired(a) + Acquired(b)
  {
    if a == [] {
      assert a + b == b;
    } else {
      AcquiredConcat(a[1..], b);
      assert (a + b)[0] == a[0] && (a + b)[1..] == a[1..] + b;
    }
  }

  lemma AcquiredThen(a: Code, b: Code)
    ensures Acquired(Flatten(Then(a, b))) == Acquired(Flatten(a)) + Acquired(Flatten(b))
  {
    AcquiredConcat(Flatten(a), Flatten(b));
  }

  /** A guard's lock is taken first and dropped last, and what is inside it comes between. */
  lemma GuardIsAround(l: Lock, m: Mode, body: Code)
    ensures var actions := Flatten(Guard(l, m, body));
            && |actions| >= 2 && actions[0] == Acquire(l, m) && actions[|actions| - 1] == Release(l)
            && actions[1..|actions| - 1] == Flatten(body)
    ensures Acquired(Flatten(Guard(l, m, body))) == [l] + Acquired(Flatten(body))
  {
    AcquiredConcat(Flatten(body), [Release(l)]);
    assert [Release(l)][1..] == [] && Acquired([Release(l)]) == [];
    var actions := [Acquire(l, m)] + Flatten(body) + [Release(l)];
    assert actions[1..] == Flatten(body) + [Release(l)];
    assert actions[1..|actions| - 1] == Flatten(body);
  }

  /** The appenders an event passes, one lock for each, in order. */
  function Passing(offers: seq<Offer>): seq<Lock> {
    if offers == [] then []
    else (if offers[0].passes then [AppenderMutex(offers[0].a)] else []) + Passing(offers[1..])
  }

  lemma {:induction false} OfferAllTakes(offers: seq<Offer>)
    ensures Acquired(Flatten(OfferAll(offers))) == Passing(offers)
  {
    if offers != [] {
      OfferAllTakes(offers[1..]);
      var first := if offers[0].passes then Guard(AppenderMutex(offers[0].a), Exclusive, Nop) else Nop;
      GuardIsAround(AppenderMutex(offers[0].a), Exclusive, Nop);
      AcquiredThen(first, OfferAll(offers[1..]));
    }
  }

  /** Logging takes the logger's lock around those of its appenders that the event passes, or,
      when it has none, around the root's lock and those of the root's appenders. */
  lemma LogTakes(l: nat, offers: seq<Offer>, rootOffers: seq<Offer>)
    ensures Acquired(Flatten(CodeOf(LogToRoot(RootLine(true, rootOffers))))) == [RootMutex] + Passing(rootOffers)
    ensures offers != [] ==>
              Acquired(Flatten(CodeOf(LogTo(l, true, offers, true, rootOffers)))) == [LoggerMutex(l)] + Passing(offers)
    ensures Acquired(Flatten(CodeOf(LogTo(l, true, [], true, rootOffers))))
         == [LoggerMutex(l), RootMutex] + Passing(rootOffers)
  {
    OfferAllTakes(offers);
    OfferAllTakes(rootOffers);
    GuardIsAround(RootMutex, Exclusive, OfferAll(rootOffers));
    GuardIsAround(LoggerMutex(l), Exclusive, OfferAll(offers));
    GuardIsAround(LoggerMutex(l), Exclusive, LogRoot(true, rootOffers));
  }

  function Mutexes(apps: seq<nat>): seq<Lock> {
    if apps == [] then [] else [AppenderMutex(apps[0])] + Mutexes(apps[1..])
  }

  lemma {:induction false} EachAppenderTakes(apps: seq<nat>)
    ensures Acquired(Flatten(EachAppender(apps))) == Mutexes(apps)
  {
    if apps != [] {
      EachAppenderTakes(apps[1..]);
      GuardIsAround(AppenderMutex(apps[0]), Exclusive, Nop);
      AcquiredThen(Guard(AppenderMutex(apps[0]), Exclusive, Nop), EachAppender(apps[1..]));
    }
  }

  /** setFormatter and toYamlString visit every appender inside the logger's lock. */
  lemma VisitTakes(l: LoggerRef, apps: seq<nat>)
    ensures Acquired(Flatten(CodeOf(SetFormatter(l, apps)))) == [MutexOf(l)] + Mutexes(apps)
    ensures Acquired(Flatten(CodeOf(LoggerToYaml(l, apps)))) == [MutexOf(l)] + Mutexes(apps)
  {
    EachAppenderTakes(apps);
    GuardIsAround(MutexOf(l), Exclusive, EachAppender(apps));
  }

  /** setValue of another value calls its listeners inside the read lock and takes the write
      lock after it; of an equal value it takes the read lock only. */
  lemma SetTakes(v: nat, listeners: seq<Listener>)
    ensures Flatten(CodeOf(Set(v, true, listeners)))
         == [Acquire(VarMutex(v), Shared)] + Flatten(All(Listens(listeners))) + [Release(VarMutex(v))]
            + [Acquire(VarMutex(v), Exclusive), Release(VarMutex(v))]
    ensures Flatten(CodeOf(Set(v, false, listeners))) == [Acquire(VarMutex(v), Shared), Release(VarMutex(v))]
  {
    hide Listens, All;
    var body := All(Listens(listeners));
    var reading, writing := Guard(VarMutex(v), Shared, body), Guard(VarMutex(v), Exclusive, Nop);
    assert CodeOf(Set(v, true, listeners)) == Then(reading, writing);
    assert CodeOf(Set(v, false, listeners)) == Then(Guard(VarMutex(v), Shared, Nop), Nop);
    EmptyGuard(VarMutex(v), Exclusive);
    EmptyGuard(VarMutex(v), Shared);
    assert Flatten(reading) == [Acquire(VarMutex(v), Shared)] + Flatten(body) + [Release(VarMutex(v))];
    assert Flatten(Then(reading, writing)) == Flatten(reading) + Flatten(writing);
    assert [Acquire(VarMutex(v), Shared), Release(VarMutex(v))] + []
        == [Acquire(VarMutex(v), Shared), Release(VarMutex(v))];
  }

  lemma EmptyGuard(l: Lock, m: Mode)
    ensures Flatten(Guard(l, m, Nop)) == [Acquire(l, m), Release(l)]
  {
    assert [Acquire(l, m)] + [] + [Release(l)] == [Acquire(l, m), Release(l)];
  }

  /** A thread's program: any sequence of operations. */
  function Program(ops: seq<Operation>): Code {
    if ops == [] then Nop else Then(CodeOf(ops[0]), Program(ops[1..]))
  }

  // -------------------------------------------------------- the lock order

  /** Every guard inside `c` has a rank below `ceiling` and below the guards around it. */
  predicate Descends(c: Code, ceiling: nat) {
    match c
    case Nop => true
    case Then(a, b) => Descends(a, ceiling) && Descends(b, ceiling)
    case Guard(l, _, body) => Rank(l) < ceiling && Descends(body, Rank(l))
  }

  lemma {:induction false} DescendsMonotone(c: Code, low: nat, high: nat)
    requires Descends(c, low) && low <= high
    ensures Descends(c, high)
  {
    match c
    case Nop =>
    case Then(a, b) => DescendsMonotone(a, low, high); DescendsMonotone(b, low, high);
    case Guard(_, _, _) =>
  }

  lemma {:induction false} EachAppenderDescends(apps: seq<nat>)
    ensures Descends(EachAppender(apps), 2)
  {
    if apps != [] { EachAppenderDescends(apps[1..]); }
  }

  lemma {:induction false} OfferAllDescends(offers: seq<Offer>)
    ensures Descends(OfferAll(offers), 2)
  {
    if offers != [] { OfferAllDescends(offers[1..]); }
  }

  lemma LineDescends(r: RootLine)
    ensures Descends(Line(r), 3)
  {
    OfferAllDescends(r.offers);
  }

  lemma {:induction false} LinesDescend(rs: seq<RootLine>)
    ensures Descends(Lines(rs), 3)
  {
    if rs != [] { LineDescends(rs[0]); LinesDescend(rs[1..]); }
  }

  lemma LoggerGuardDescends(l: LoggerRef, body: Code)
    requires Descends(body, 2)
    ensures Descends(Guard(MutexOf(l), Exclusive, body), 4)
  {
    DescendsMonotone(body, 2, Rank(MutexOf(l)));
  }

  lemma AddDescends(l: LoggerRef, a: nat, inherits: bool)
    ensures Descends(AddAppender(l, a, inherits), 4)
  {
    var one := Guard(AppenderMutex(a), Exclusive, Nop);
    assert Descends(one, 2);
    LoggerGuardDescends(l, Then(one, if inherits then one else Nop));
  }

  lemma {:induction false} AppenderEditsDescend(l: LoggerRef, es: seq<AppenderEdit>)
    ensures Descends(AppenderEdits(l, es), 4)
  {
    if es != [] {
      AddDescends(l, es[0].a, es[0].inherits);
      var one := Guard(AppenderMutex(es[0].a), Exclusive, Nop);
      assert Descends(one, 4);
      assert Descends(Then(if es[0].hasFormatter then one else Nop, AddAppender(l, es[0].a, es[0].inherits)), 4);
      assert Descends(AppenderEditCode(l, es[0]), 4);
      AppenderEditsDescend(l, es[1..]);
    }
  }

  lemma EditDescends(e: Edit)
    ensures Descends(EditCode(e), 5)
  {
    EachAppenderDescends(e.attached);
    LoggerGuardDescends(e.logger, EachAppender(e.attached));
    LoggerGuardDescends(e.logger, Nop);
    AppenderEditsDescend(e.logger, e.appenders);
    DescendsMonotone(SetLoggerFormatter(e.logger, e.attached), 4, 5);
    DescendsMonotone(Guard(MutexOf(e.logger), Exclusive, Nop), 4, 5);
    DescendsMonotone(AppenderEdits(e.logger, e.appenders), 4, 5);
  }

  lemma {:induction false} EditsDescend(es: seq<Edit>)
    ensures Descends(Edits(es), 5)
  {
    if es != [] { EditDescends(es[0]); EditsDescend(es[1..]); }
  }

  lemma {:induction false} RemovalsDescend(ls: seq<LoggerRef>)
    ensures Descends(Removals(ls), 5)
  {
    if ls != [] {
      LoggerGuardDescends(ls[0], Nop);
      RemovalsDescend(ls[1..]);
    }
  }

  lemma {:induction false} ListensDescend(ls: seq<Listener>)
    ensures Descends(All(Listens(ls)), 5)
  {
    if ls != [] {
      var l := ls[0];
      LineDescends(l.line);
      DescendsMonotone(Line(l.line), 3, 5);
      EditsDescend(l.edits);
      RemovalsDescend(l.removed);
      ListensDescend(ls[1..]);
      assert Listens(ls)[1..] == Listens(ls[1..]);
    }
  }

  lemma SetValueDescends(v: nat, changed: bool, listeners: seq<Listener>)
    ensures Descends(SetValue(v, changed, listeners), 6)
  {
    ListensDescend(listeners);
  }

  lemma {:induction false} LoadDescends(es: seq<Entry>)
    ensures Descends(LoadEntries(es), TOP)
  {
    if es != [] {
      var e := es[0];
      LinesDescend(e.lines);
      DescendsMonotone(Lines(e.lines), 3, TOP);
      SetValueDescends(e.v, e.changed, e.listeners);
      DescendsMonotone(SetValue(e.v, e.changed, e.listeners), 6, TOP);
      LineDescends(e.failure);
      DescendsMonotone(Line(e.failure), 3, TOP);
      assert Descends(Guard(ConfigMutex, Shared, Nop), TOP);
      assert Descends(LoadEntry(e), TOP);
      LoadDescends(es[1..]);
    }
  }

  lemma {:induction false} ToYamlAllDescends(ls: seq<(LoggerRef, seq<nat>)>)
    ensures Descends(ToYamlAll(ls), 4)
  {
    if ls != [] {
      EachAppenderDescends(ls[0].1);
      LoggerGuardDescends(ls[0].0, EachAppender(ls[0].1));
      ToYamlAllDescends(ls[1..]);
    }
  }

  lemma LogNamedDescends(l: nat, accepted: bool, offers: seq<Offer>, rootAccepted: bool, rootOffers: seq<Offer>)
    ensures Descends(LogNamed(l, accepted, offers, rootAccepted, rootOffers), 4)
  {
    OfferAllDescends(offers);
    DescendsMonotone(OfferAll(offers), 2, 3);
    LineDescends(RootLine(rootAccepted, rootOffers));
  }

  lemma LookupDescends(found: Found, line: RootLine)
    ensures Descends(CodeOf(LookupOrCreate(found, line)), TOP)
  {
    LineDescends(line);
    DescendsMonotone(Line(line), 3, 6);
    if found.OtherType? {
      LineDescends(found.castLine);
      DescendsMonotone(Line(found.castLine), 3, 6);
      assert Descends(Guard(VarMutex(found.v), Shared, Nop), 6);
      assert Descends(Then(if found.castFails then Line(found.castLine) else Nop, Line(line)), 6);
    }
  }

  /** Each operation acquires locks in strictly descending order. */
  lemma OperationDescends(op: Operation)
    ensures Descends(CodeOf(op), TOP)
  {
    match op
    case LogTo(l, accepted, offers, rootAccepted, rootOffers) =>
      LogNamedDescends(l, accepted, offers, rootAccepted, rootOffers);
      DescendsMonotone(CodeOf(op), 4, TOP);
    case LogToRoot(line) =>
      LineDescends(line);
      DescendsMonotone(CodeOf(op), 3, TOP);
    case SetFormatter(l, apps) =>
      EachAppenderDescends(apps);
      LoggerGuardDescends(l, EachAppender(apps));
      DescendsMonotone(CodeOf(op), 4, TOP);
    case Add(l, a, inherits) =>
      AddDescends(l, a, inherits);
      DescendsMonotone(CodeOf(op), 4, TOP);
    case LoggerToYaml(l, apps) =>
      EachAppenderDescends(apps);
      LoggerGuardDescends(l, EachAppender(apps));
      DescendsMonotone(CodeOf(op), 4, TOP);
    case ManagerToYaml(ls) =>
      ToYamlAllDescends(ls);
    case Set(v, changed, listeners) =>
      SetValueDescends(v, changed, listeners);
      DescendsMonotone(CodeOf(op), 6, TOP);
    case LookupOrCreate(found, line) =>
      LookupDescends(found, line);
    case Load(entries) =>
      LoadDescends(entries);
    case _ =>
  }

  lemma {:induction false} ProgramDescends(ops: seq<Operation>)
    ensures Descends(Program(ops), TOP)
  {
    if ops != [] {
      OperationDescends(ops[0]);
      ProgramDescends(ops[1..]);
    }
  }

  // -------------------------------------------------------------- the machine

  datatype Held = Held(lock: Lock, mode: Mode)

  datatype Thread = Thread(held: seq<Held>, todo: seq<Action>)

  /** Locks are released last first; each one acquired ranks below all that are held. */
  predicate Ordered(held: seq<Held>, todo: seq<Action>)
    decreases todo
  {
    if todo == [] then held == []
    else
      match todo[0]
      case Acquire(l, m) =>
        (forall h | h in held :: Rank(l) < Rank(h.lock)) && Ordered(held + [Held(l, m)], todo[1..])
      case Release(l) =>
        held != [] && held[|held| - 1].lock == l && Ordered(held[..|held| - 1], todo[1..])
  }

  /** The guards of code that descends from what is held leave `held` as it was. */
  lemma {:induction false} FlattenOrdered(c: Code, ceiling: nat, held: seq<Held>, rest: seq<Action>)
    requires Descends(c, ceiling)
    requires forall h | h in held :: ceiling <= Rank(h.lock)
    requires Ordered(held, rest)
    ensures Ordered(held, Flatten(c) + rest)
    decreases c
  {
    match c
    case Nop =>
      assert [] + rest == rest;
    case Then(a, b) =>
      FlattenOrdered(b, ceiling, held, rest);
      FlattenOrdered(a, ceiling, held, Flatten(b) + rest);
      assert Flatten(a) + (Flatten(b) + rest) == Flatten(c) + rest;
    case Guard(l, m, body) =>
      var inner := held + [Held(l, m)];
      var tail := [Release(l)] + rest;
      assert inner[..|inner| - 1] == held && tail[1..] == rest;
      assert Ordered(inner, tail);
      FlattenOrdered(body, Rank(l), inner, tail);
      var all := Flatten(c) + rest;
      assert all[0] == Acquire(l, m) && all[1..] == Flatten(body) + tail;
  }

  /** Threads at the start of their programs. */
  ghost predicate Initial(s: seq<Thread>) {
    forall t | 0 <= t < |s| :: s[t].held == [] && exists ops :: s[t].todo == Flatten(Program(ops))
  }

  predicate HoldsLock(t: Thread, l: Lock) {
    exists i | 0 <= i < |t.held| :: t.held[i].lock == l
  }

  predicate HoldsExclusive(t: Thread, l: Lock) {
    Held(l, Exclusive) in t.held
  }

  /** The lock rules: a writer needs the lock free, a reader needs it free of writers. */
  predicate Enabled(s: seq<Thread>, t: nat) {
    t < |s| && s[t].todo != [] &&
    match s[t].todo[0]
    case Acquire(l, Exclusive) => forall u | 0 <= u < |s| :: !HoldsLock(s[u], l)
    case Acquire(l, Shared) => forall u | 0 <= u < |s| :: !HoldsExclusive(s[u], l)
    case Release(l) => s[t].held != []
  }

  /** A stricter rule for readers: a waiting writer goes first. */
  predicate EnabledFairly(s: seq<Thread>, t: nat) {
    Enabled(s, t) &&
    (s[t].todo[0].Acquire? && s[t].todo[0].mode.Shared? ==>
       forall u | 0 <= u < |s| :: s[u].todo == [] || s[u].todo[0] != Acquire(s[t].todo[0].lock, Exclusive))
  }

  function Step(s: seq<Thread>, t: nat): (s1: seq<Thread>)
    requires Enabled(s, t)
    ensures |s1| == |s|
  {
    var th := s[t];
    s[t := Thread(match th.todo[0]
                  case Acquire(l, m) => th.held + [Held(l, m)]
                  case Release(_) => th.held[..|th.held| - 1],
                  th.todo[1..])]
  }

  predicate Schedule(s: seq<Thread>, ts: seq<nat>)
    decreases |ts|
  {
    ts == [] || (Enabled(s, ts[0]) && Schedule(Step(s, ts[0]), ts[1..]))
  }

  function After(s: seq<Thread>, ts: seq<nat>): seq<Thread>
    requires Schedule(s, ts)
    decreases |ts|
  {
    if ts == [] then s else After(Step(s, ts[0]), ts[1..])
  }

  // ---------------------------------------------------------------- invariant

  ghost predicate AllOrdered(s: seq<Thread>) {
    forall t | 0 <= t < |s| :: Ordered(s[t].held, s[t].todo)
  }

  /** An exclusive holder excludes all others. */
  ghost predicate Exclusion(s: seq<Thread>) {
    forall t, u, l | 0 <= t < |s| && 0 <= u < |s| && t != u && HoldsExclusive(s[t], l) :: !HoldsLock(s[u], l)
  }

  lemma InitialIsOrdered(s: seq<Thread>)
    requires Initial(s)
    ensures AllOrdered(s) && Exclusion(s)
  {
    forall t | 0 <= t < |s| ensures Ordered(s[t].held, s[t].todo) {
      var ops :| s[t].todo == Flatten(Program(ops));
      ProgramDescends(ops);
      FlattenOrdered(Program(ops), TOP, [], []);
      assert Flatten(Program(ops)) + [] == Flatten(Program(ops));
    }
  }

  lemma StepKeepsOrder(s: seq<Thread>, t: nat)
    requires AllOrdered(s) && Enabled(s, t)
    ensures AllOrdered(Step(s, t))
  {
    assert Ordered(s[t].held, s[t].todo);
  }

  lemma StepKeepsExclusion(s: seq<Thread>, t: nat)
    requires Exclusion(s) && Enabled(s, t)
    ensures Exclusion(Step(s, t))
  {
    var s1 := Step(s, t);
    forall a, b, l | 0 <= a < |s1| && 0 <= b < |s1| && a != b && HoldsExclusive(s1[a], l)
      ensures !HoldsLock(s1[b], l)
    {
      HoldsAfter(s, t, a, l);
      HoldsAfter(s, t, b, l);
    }
  }

  /** What a thread holds after a step it held before, except a lock it just acquired. */
  lemma HoldsAfter(s: seq<Thread>, t: nat, u: nat, l: Lock)
    requires Enabled(s, t) && u < |s|
    ensures HoldsLock(Step(s, t)[u], l) ==> HoldsLock(s[u], l) || (u == t && s[t].todo[0].Acquire? && s[t].todo[0].lock == l)
    ensures HoldsExclusive(Step(s, t)[u], l) ==> HoldsExclusive(s[u], l) || (u == t && s[t].todo[0] == Acquire(l, Exclusive))
  {
  }

  lemma {:induction false} ReachableKeeps(s: seq<Thread>, ts: seq<nat>)
    requires AllOrdered(s) && Exclusion(s) && Schedule(s, ts)
    ensures AllOrdered(After(s, ts)) && Exclusion(After(s, ts)) && |After(s, ts)| == |s|
    decreases |ts|
  {
    if ts != [] {
      StepKeepsOrder(s, ts[0]);
      StepKeepsExclusion(s, ts[0]);
      ReachableKeeps(Step(s, ts[0]), ts[1..]);
    }
  }

  // ------------------------------------------------------------ main results

  predicate Unfinished(s: seq<Thread>, t: nat) {
    t < |s| && s[t].todo != []
  }

  /** A holder has not finished, and whatever it wants ranks below what it holds. */
  lemma HolderGoesLower(s: seq<Thread>, u: nat, l: Lock)
    requires AllOrdered(s) && u < |s| && HoldsLock(s[u], l)
    ensures Unfinished(s, u)
    ensures s[u].todo[0].Acquire? ==> Rank(s[u].todo[0].lock) < Rank(l)
    ensures s[u].todo[0].Release? ==> EnabledFairly(s, u)
  {
    assert Ordered(s[u].held, s[u].todo);
    var i :| 0 <= i < |s[u].held| && s[u].held[i].lock == l;
    assert s[u].held[i] in s[u].held;
  }

  /** From a thread that wants a lock of rank below `bound`, a thread that can go on. */
  lemma {:induction false} SomeoneCanGo(s: seq<Thread>, t: nat) returns (r: nat)
    requires AllOrdered(s) && Unfinished(s, t)
    ensures EnabledFairly(s, r)
    decreases if s[t].todo[0].Acquire? then Rank(s[t].todo[0].lock) + 1 else 0
  {
    assert Ordered(s[t].held, s[t].todo);
    if s[t].todo[0].Release? {
      return t;
    }
    var l := s[t].todo[0].lock;
    if u :| 0 <= u < |s| && HoldsLock(s[u], l) {
      HolderGoesLower(s, u, l);
      if s[u].todo[0].Release? {
        return u;
      }
      r := SomeoneCanGo(s, u);
      return;
    }
    NobodyHolds(s, l);
    if w :| 0 <= w < |s| && s[w].todo != [] && s[w].todo[0] == Acquire(l, Exclusive) {
      return w;
    }
    return t;
  }

  lemma NobodyHolds(s: seq<Thread>, l: Lock)
    requires forall u | 0 <= u < |s| :: !HoldsLock(s[u], l)
    ensures forall u | 0 <= u < |s| :: !HoldsExclusive(s[u], l)
  {
    forall u | 0 <= u < |s| ensures !HoldsExclusive(s[u], l) {
      assert forall i | 0 <= i < |s[u].held| :: s[u].held[i].lock != l;
    }
  }

  /** In every reachable state some unfinished thread can step, even when readers give way
      to waiting writers. */
  lemma DeadlockFree(s: seq<Thread>, ts: seq<nat>, t: nat)
    requires Initial(s) && Schedule(s, ts) && Unfinished(After(s, ts), t)
    ensures exists r :: EnabledFairly(After(s, ts), r)
  {
    InitialIsOrdered(s);
    ReachableKeeps(s, ts);
    var r := SomeoneCanGo(After(s, ts), t);
  }

  /** No thread ever acquires a lock it holds, in any mode, nor one that ranks as high. */
  lemma NeverRetaken(s: seq<Thread>, ts: seq<nat>, t: nat)
    requires Initial(s) && Schedule(s, ts) && Unfinished(After(s, ts), t)
    requires After(s, ts)[t].todo[0].Acquire?
    ensures forall h | h in After(s, ts)[t].held :: Rank(After(s, ts)[t].todo[0].lock) < Rank(h.lock)
    ensures !HoldsLock(After(s, ts)[t], After(s, ts)[t].todo[0].lock)
  {
    InitialIsOrdered(s);
    ReachableKeeps(s, ts);
    var th := After(s, ts)[t];
    assert Ordered(th.held, th.todo);
    assert forall i | 0 <= i < |th.held| :: th.held[i] in th.held;
  }

  /** A thread that has finished holds nothing. */
  lemma FinishedHoldsNothing(s: seq<Thread>, ts: seq<nat>, t: nat)
    requires Initial(s) && Schedule(s, ts) && t < |s|
    ensures t < |After(s, ts)| && (After(s, ts)[t].todo == [] ==> After(s, ts)[t].held == [])
  {
    InitialIsOrdered(s);
    ReachableKeeps(s, ts);
    assert Ordered(After(s, ts)[t].held, After(s, ts)[t].todo);
  }

  /** Actions still to be done by all threads. */
  function Remaining(s: seq<Thread>): nat {
    if s == [] then 0 else |s[0].todo| + Remaining(s[1..])
  }

  lemma {:induction false} RemainingDrops(s: seq<Thread>, t: nat, th: Thread)
    requires t < |s|
    ensures Remaining(s[t := th]) == Remaining(s) - |s[t].todo| + |th.todo|
    decreases |s|
  {
    if t == 0 {
      assert s[t := th][1..] == s[1..];
    } else {
      RemainingDrops(s[1..], t - 1, th);
      assert s[t := th][1..] == s[1..][t - 1 := th];
    }
  }

  /** Every schedule is finite: with freedom from deadlock, all threads finish. */
  lemma {:induction false} SchedulesAreFinite(s: seq<Thread>, ts: seq<nat>)
    requires Schedule(s, ts)
    ensures |ts| + Remaining(After(s, ts)) == Remaining(s)
    decreases |ts|
  {
    if ts != [] {
      RemainingDrops(s, ts[0], Step(s, ts[0])[ts[0]]);
      SchedulesAreFinite(Step(s, ts[0]), ts[1..]);
    }
  }

  // ------------------------------------------------------------ scoped guards

  /** A scoped guard over one lock: the constructor locks, `calls` are the explicit
      lock() (true) and unlock() (false) calls in its scope, the destructor unlocks. */
  function GuardActions(calls: seq<bool>, locked: bool): seq<bool> {
    if calls == [] then (if locked then [false] else [])
    else if calls[0] == locked then GuardActions(calls[1..], locked)
    else [calls[0]] + GuardActions(calls[1..], calls[0])
  }

  /** What reaches the underlying lock alternates, starting opposite to `locked`, and ends
      with the lock free: the guard never locks twice, nor frees what it does not hold. */
  lemma {:induction false} GuardsAlternate(calls: seq<bool>, locked: bool)
    ensures var a := GuardActions(calls, locked);
            && (a != [] ==> a[0] == !locked && !a[|a| - 1])
            && (a == [] ==> !locked)
            && forall i | 0 <= i < |a| - 1 :: a[i] != a[i + 1]
    decreases |calls|
  {
    if calls == [] {
    } else if calls[0] == locked {
      GuardsAlternate(calls[1..], locked);
    } else {
      GuardsAlternate(calls[1..], calls[0]);
    }
  }

  /** A lock as pthreads offers it to one thread. */
  class RawLock {
    var log: seq<bool>

    constructor ()
      ensures log == []
    {
      log := [];
    }

    method Lock()
      modifies this
      ensures log == old(log) + [true]
    {
      log := log + [true];
    }

    method Unlock()
      modifies this
      ensures log == old(log) + [false]
    {
      log := log + [false];
    }
  }

  /** ScopedLockImpl; the read and write guards differ in the lock call only. */
  class ScopedLock {
    const m_mutex: RawLock
    var m_locked: bool

    constructor (mutex: RawLock)
      modifies mutex
      ensures m_mutex == mutex && m_locked
      ensures mutex.log == old(mutex.log) + [true]
    {
      m_mutex := mutex;
      new;
      m_mutex.Lock();
      m_locked := true;
    }

    method Lock()
      modifies this, m_mutex
      ensures m_locked
      ensures m_mutex.log == old(m_mutex.log) + if old(m_locked) then [] else [true]
    {
      if !m_locked {
        m_mutex.Lock();
        m_locked := true;
      }
    }

    method Unlock()
      modifies this, m_mutex
      ensures !m_locked
      ensures m_mutex.log == old(m_mutex.log) + if old(m_locked) then [false] else []
    {
      if m_locked {
        m_mutex.Unlock();
        m_locked := false;
      }
    }
  }

  /** A scope with a guard: the lock sees exactly GuardActions. */
  method InScope(mutex: RawLock, calls: seq<bool>)
    modifies mutex
    ensures mutex.log == old(mutex.log) + [true] + GuardActions(calls, true)
  {
    var guard := new ScopedLock(mutex);
    var i := 0;
    ghost var before := mutex.log;
    assert calls[0..] == calls;
    while i < |calls|
      invariant 0 <= i <= |calls|
      invariant fresh(guard) && guard.m_mutex == mutex
      invariant mutex.log + GuardActions(calls[i..], guard.m_locked) == before + GuardActions(calls, true)
    {
      assert calls[i..][1..] == calls[i + 1..];
      if calls[i] {
        guard.Lock();
      } else {
        guard.Unlock();
      }
      i := i + 1;
    }
    guard.Unlock();
  }
}
