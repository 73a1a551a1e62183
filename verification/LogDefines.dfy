/**
 Log levels, the definitions of loggers, and their two casts in src/log.cc.

 The casts are modelled on YAML trees, reading what a node holds and writing a node;
 an exception is None.
 */
module LogDefines {
  import opened Wrappers
  import opened Yaml
  import opened Ordered

  datatype Level = UNKNOW | DEBUG | INFO | WARN | ERROR | FATAL

  function Num(l: Level): nat {
    match l
    case UNKNOW => 0
    case DEBUG => 1
    case INFO => 2
    case WARN => 3
    case ERROR => 4
    case FATAL => 5
  }

  function LevelToString(l: Level): string {
    match l
    case UNKNOW => "UNKNOW"
    case DEBUG => "DEBUG"
    case INFO => "INFO"
    case WARN => "WARN"
    case ERROR => "ERROR"
    case FATAL => "FATAL"
  }

  /** Upper or lower case names; anything else is UNKNOW. */
  function LevelFromString(s: string): Level {
    if s == "debug" || s == "DEBUG" then DEBUG
    else if s == "info" || s == "INFO" then INFO
    else if s == "warn" || s == "WARN" then WARN
    else if s == "error" || s == "ERROR" then ERROR
    else if s == "fatal" || s == "FATAL" then FATAL
    else UNKNOW
  }

  /** The levels from the least to the most severe, and their names. */
  const LEVELS: seq<Level> := [UNKNOW, DEBUG, INFO, WARN, ERROR, FATAL]
  const UPPER_NAMES: seq<string> := ["UNKNOW", "DEBUG", "INFO", "WARN", "ERROR", "FATAL"]
  const LOWER_NAMES: seq<string> := ["unknow", "debug", "info", "warn", "error", "fatal"]

  /** Level x does not come after level y in the list. */
  ghost predicate NotAfter(x: Level, y: Level) {
    exists i, j | 0 <= i <= j < |LEVELS| :: LEVELS[i] == x && LEVELS[j] == y
  }

  lemma NumIsPosition(x: Level)
    ensures Num(x) < |LEVELS| && LEVELS[Num(x)] == x
    ensures forall i | 0 <= i < |LEVELS| && LEVELS[i] == x :: i == Num(x)
  {
  }

  lemma NumByList(x: Level, y: Level)
    ensures Num(x) <= Num(y) <==> NotAfter(x, y)
  {
    NumIsPosition(x);
    NumIsPosition(y);
  }

  /** A level prints as its name, and is read from it in upper or lower case; UNKNOW, which is
      no name to the reader, is what everything else is read as. */
  lemma LevelNames(i: nat)
    requires i < |LEVELS|
    ensures LevelToString(LEVELS[i]) == UPPER_NAMES[i]
    ensures LevelFromString(UPPER_NAMES[i]) == LevelFromString(LOWER_NAMES[i]) == LEVELS[i]
  {
    match LEVELS[i]
    case UNKNOW =>
      assert "UNKNOW"[0] == 'U' && "unknow"[0] == 'u';
    case DEBUG =>
    case INFO =>
      assert "INFO"[0] == 'I' && "info"[0] == 'i';
    case WARN =>
      assert "WARN"[0] == 'W' && "warn"[0] == 'w';
    case ERROR =>
      assert "ERROR"[0] == 'E' && "error"[0] == 'e';
    case FATAL =>
      assert "FATAL"[0] == 'F' && "fatal"[0] == 'f';
  }

  lemma OtherNames(s: string)
    requires forall i | 0 <= i < |LEVELS| :: s != UPPER_NAMES[i] && s != LOWER_NAMES[i]
    ensures LevelFromString(s) == UNKNOW
  {
    assert UPPER_NAMES[1] == "DEBUG" && UPPER_NAMES[2] == "INFO" && UPPER_NAMES[3] == "WARN";
    assert UPPER_NAMES[4] == "ERROR" && UPPER_NAMES[5] == "FATAL";
    assert LOWER_NAMES[1] == "debug" && LOWER_NAMES[2] == "info" && LOWER_NAMES[3] == "warn";
    assert LOWER_NAMES[4] == "error" && LOWER_NAMES[5] == "fatal";
  }

  /** `kind` is the source's type: 1 for a file, 2 for the console. */
  datatype AppenderDefine = AppenderDefine(kind: int, level: Level, formatter: string, file: string)

  datatype LogDefine = LogDefine(name: string, level: Level, formatter: string, appenders: seq<AppenderDefine>)

  /** LogDefine::operator==, which compares `appenders` with itself. */
  predicate SameDefine(a: LogDefine, b: LogDefine) {
    a.name == b.name && a.level == b.level && a.formatter == b.formatter && a.appenders == a.appenders
  }

  /** LogDefine::operator<. */
  predicate NameLess(a: LogDefine, b: LogDefine) {
    StrLess(a.name, b.name)
  }

  lemma NameLessIsStrict()
    ensures StrictOrder(NameLess)
  {
    forall x, y | NameLess(x, y) ensures !NameLess(y, x) {
      StrLessAsymmetric(x.name, y.name);
    }
    forall x, y, z | NameLess(x, y) && NameLess(y, z) ensures NameLess(x, z) {
      StrLessTransitive(x.name, y.name, z.name);
    }
  }

  // ------------------------------------------------------------------ reading

  /** node[key]: scalars cannot be indexed by a key. */
  datatype Access = Throws | Undefined | Defined(node: Node)

  function Get(n: Node, key: string): Access {
    match n
    case Scalar(_) => Throws
    case Mapping(entries) => (
      match Lookup(entries, key)
      case Some(v) => Defined(v)
      case None => Undefined
      )
    case _ => Undefined
  }

  /** node.as<std::string>(). */
  function AsString(n: Node): Option<string> {
    if n.Scalar? then Some(n.text) else None
  }

  /** The string under a key, "" when there is none. */
  function OptionalString(n: Node, key: string): Option<string> {
    match Get(n, key)
    case Throws => None
    case Undefined => Some("")
    case Defined(v) => AsString(v)
  }

  /** One element of the sequence of appenders. */
  datatype Element = Fails | Skips | Keeps(appender: AppenderDefine)

  const FILE_TYPE: string := "FileLogAppender"
  const STDOUT_TYPE: string := "StdoutLogAppender"

  function ReadAppender(a: Node): Element {
    match Get(a, "type")
    case Throws => Fails
    case Undefined => Skips
    case Defined(t) =>
      if AsString(t).None? then Fails
      else if t.text == FILE_TYPE then
        match Get(a, "file")
        case Throws => Fails
        case Undefined => Skips
        case Defined(f) =>
          if AsString(f).None? || OptionalString(a, "formatter").None? then Fails
          else Keeps(AppenderDefine(1, UNKNOW, OptionalString(a, "formatter").value, f.text))
      else if t.text == STDOUT_TYPE then
        if OptionalString(a, "formatter").None? then Fails
        else Keeps(AppenderDefine(2, UNKNOW, OptionalString(a, "formatter").value, ""))
      else Skips
  }

  /** The text under a key, "" when there is none; what is there must be a text. */
  predicate TextUnder(entries: seq<Entry>, key: string, text: string) {
    match Lookup(entries, key)
    case Some(v) => v == Scalar(text)
    case None => text == ""
  }

  /** A file appender needs a file; both kinds may have a formatter. */
  lemma AppenderIsRead(entries: seq<Entry>, formatter: string)
    requires TextUnder(entries, "formatter", formatter)
    ensures Lookup(entries, "type") == Some(Scalar("StdoutLogAppender")) ==>
              ReadAppender(Mapping(entries)) == Keeps(AppenderDefine(2, UNKNOW, formatter, ""))
    ensures forall file: string ::
              Lookup(entries, "type") == Some(Scalar("FileLogAppender")) && Lookup(entries, "file") == Some(Scalar(file)) ==>
                ReadAppender(Mapping(entries)) == Keeps(AppenderDefine(1, UNKNOW, formatter, file))
  {
    assert "StdoutLogAppender"[0] == 'S' && "FileLogAppender"[0] == 'F';
  }

  /** An appender without a type, with an unknown one, or without the file it needs is left out. */
  lemma AppenderIsSkipped(entries: seq<Entry>)
    requires || Lookup(entries, "type").None?
             || (Lookup(entries, "type") == Some(Scalar("FileLogAppender")) && Lookup(entries, "file").None?)
             || (exists t :: t != "FileLogAppender" && t != "StdoutLogAppender" && Lookup(entries, "type") == Some(Scalar(t)))
    ensures ReadAppender(Mapping(entries)) == Skips
  {
  }

  function ReadAppenders(items: seq<Node>): Option<seq<AppenderDefine>>
    decreases |items|
  {
    if items == [] then Some([])
    else
      var init := ReadAppenders(items[..|items| - 1]);
      if init.None? then None
      else
        match ReadAppender(items[|items| - 1])
        case Fails => None
        case Skips => init
        case Keeps(a) => Some(init.value + [a])
  }

  /** The elements a loop over a node reads; an undefined one reads like an empty text. */
  function ElementsOf(n: Node): (ns: seq<Node>)
    ensures n.Sequence? ==> ns == n.items
  {
    var es := Elements(n);
    seq(|es|, i requires 0 <= i < |es| => if es[i].Some? then es[i].value else Null)
  }

  /** LexicalCast<std::string, LogDefine>. */
  function ReadDefine(n: Node): Option<LogDefine> {
    match Get(n, "name")
    case Throws => None
    case Undefined => None
    case Defined(v) =>
      var name := AsString(v);
      var level := OptionalString(n, "level");
      var formatter := OptionalString(n, "formatter");
      if name.None? || level.None? || formatter.None? then None
      else
        var appenders :=
          match Get(n, "appenders")
          case Throws => None
          case Undefined => Some([])
          case Defined(a) => ReadAppenders(ElementsOf(a));
        if appenders.None? then None
        else Some(LogDefine(name.value, LevelFromString(level.value), formatter.value, appenders.value))
  }

  /** A definition needs a name; level and formatter default to the empty text. */
  lemma DefineIsRead(entries: seq<Entry>, level: string, formatter: string)
    requires TextUnder(entries, "level", level) && TextUnder(entries, "formatter", formatter)
    ensures Lookup(entries, "name").None? ==> ReadDefine(Mapping(entries)).None?
    ensures forall name: string :: Lookup(entries, "name") == Some(Scalar(name)) && Lookup(entries, "appenders").None? ==>
              ReadDefine(Mapping(entries)) == Some(LogDefine(name, LevelFromString(level), formatter, []))
    ensures forall name: string, items: seq<Node> ::
              Lookup(entries, "name") == Some(Scalar(name)) && Lookup(entries, "appenders") == Some(Sequence(items))
              && ReadAppenders(items).Some? ==>
                ReadDefine(Mapping(entries))
                == Some(LogDefine(name, LevelFromString(level), formatter, ReadAppenders(items).value))
  {
    hide LevelFromString, ReadAppenders;
  }

  lemma LookupInThree(a: Entry, b: Entry, c: Entry, key: string)
    ensures Lookup([a, b, c], key) == if a.key == key then Some(a.value) else Lookup([b, c], key)
    ensures Lookup([b, c], key) == if b.key == key then Some(b.value) else Lookup([c], key)
    ensures Lookup([c], key) == if c.key == key then Some(c.value) else None
  {
    assert [a, b, c][1..] == [b, c] && [b, c][1..] == [c] && [c][1..] == [];
  }

  lemma DocumentedKeysDiffer()
    ensures "name" != "level" && "name" != "appenders" && "name" != "formatter" && "level" != "appenders"
    ensures "level" != "formatter" && "appenders" != "formatter"
    ensures "type" != "file" && "type" != "formatter" && "file" != "formatter"
  {
    assert "name"[0] == 'n' && "level"[0] == 'l' && "appenders"[0] == 'a' && "formatter"[0] == 'f';
    assert "type"[0] == 't' && "file"[0] == 'f' && "formatter"[1] == 'o' && "file"[1] == 'i';
  }

  /** The form of bin/conf/log.yaml: a name, a level in lower case, and two appenders. */
  lemma DocumentedForm(name: string, i: nat, file: string)
    requires i < |LEVELS|
    ensures var toFile := Mapping([Entry("type", Scalar("FileLogAppender")), Entry("file", Scalar(file))]);
            var toConsole := Mapping([Entry("type", Scalar("StdoutLogAppender"))]);
            ReadDefine(Mapping([Entry("name", Scalar(name)), Entry("level", Scalar(LOWER_NAMES[i])),
                                Entry("appenders", Sequence([toFile, toConsole]))]))
            == Some(LogDefine(name, LEVELS[i], "",
                              [AppenderDefine(1, UNKNOW, "", file), AppenderDefine(2, UNKNOW, "", "")]))
  {
    hide LevelFromString, ReadAppenders, ReadDefine, ReadAppender, Lookup;
    var toFile := Mapping([Entry("type", Scalar("FileLogAppender")), Entry("file", Scalar(file))]);
    var toConsole := Mapping([Entry("type", Scalar("StdoutLogAppender"))]);
    TwoAppenders(file);
    LevelNames(i);
    DocumentedDefine(name, LOWER_NAMES[i], [toFile, toConsole]);
  }

  lemma DocumentedDefine(name: string, level: string, items: seq<Node>)
    requires ReadAppenders(items).Some?
    ensures ReadDefine(Mapping([Entry("name", Scalar(name)), Entry("level", Scalar(level)),
                                Entry("appenders", Sequence(items))]))
         == Some(LogDefine(name, LevelFromString(level), "", ReadAppenders(items).value))
  {
    hide LevelFromString, ReadAppenders, ReadDefine, Lookup;
    var a, b, c := Entry("name", Scalar(name)), Entry("level", Scalar(level)), Entry("appenders", Sequence(items));
    DocumentedKeysDiffer();
    LookupInThree(a, b, c, "name");
    LookupInThree(a, b, c, "level");
    LookupInThree(a, b, c, "formatter");
    LookupInThree(a, b, c, "appenders");
    DefineIsRead([a, b, c], level, "");
  }

  lemma TwoAppenders(file: string)
    ensures var toFile := Mapping([Entry("type", Scalar("FileLogAppender")), Entry("file", Scalar(file))]);
            var toConsole := Mapping([Entry("type", Scalar("StdoutLogAppender"))]);
            ReadAppenders([toFile, toConsole])
            == Some([AppenderDefine(1, UNKNOW, "", file), AppenderDefine(2, UNKNOW, "", "")])
  {
    hide ReadAppender, Lookup, ReadAppenders;
    var t, f := Entry("type", Scalar("FileLogAppender")), Entry("file", Scalar(file));
    var console := Entry("type", Scalar("StdoutLogAppender"));
    DocumentedKeysDiffer();
    LookupInThree(t, t, f, "type");
    LookupInThree(t, t, f, "file");
    LookupInThree(t, t, f, "formatter");
    LookupInThree(t, t, console, "type");
    LookupInThree(t, t, console, "formatter");
    AppenderIsRead([t, f], "");
    AppenderIsRead([console], "");
    TwoAreRead(Mapping([t, f]), Mapping([console]));
  }

  lemma TwoAreRead(a: Node, b: Node)
    requires ReadAppender(a).Keeps? && ReadAppender(b).Keeps?
    ensures ReadAppenders([a, b]) == Some([ReadAppender(a).appender, ReadAppender(b).appender])
  {
    hide ReadAppender;
    var x, y := ReadAppender(a).appender, ReadAppender(b).appender;
    assert [] + [a] == [a] && [a] + [b] == [a, b] && [] + [x] == [x] && [x] + [y] == [x, y];
    ReadAppendersEnd([], a);
    ReadAppendersEnd([a], b);
  }

  // ------------------------------------------------------------------ writing

  function Field(key: string, value: string, present: bool): seq<Entry> {
    if present then [Entry(key, Scalar(value))] else []
  }

  function WriteAppender(a: AppenderDefine): Node {
    var entries :=
      (if a.kind == 1 then Field("type", FILE_TYPE, true) + Field("file", a.file, true)
       else Field("type", STDOUT_TYPE, a.kind == 2)) +
      Field("level", LevelToString(a.level), a.level != UNKNOW) +
      Field("formatter", a.formatter, a.formatter != "");
    if entries == [] then Null else Mapping(entries)
  }

  function WriteAppenders(appenders: seq<AppenderDefine>): (ns: seq<Node>)
    ensures |ns| == |appenders|
  {
    seq(|appenders|, i requires 0 <= i < |appenders| => WriteAppender(appenders[i]))
  }

  /** LexicalCast<LogDefine, std::string>. */
  function WriteDefine(d: LogDefine): Node {
    Mapping(Field("name", d.name, true) +
            Field("level", LevelToString(d.level), d.level != UNKNOW) +
            Field("formatter", d.formatter, d.formatter != "") +
            if d.appenders == [] then [] else [Entry("appenders", Sequence(WriteAppenders(d.appenders)))])
  }

  /** The writer does write an appender's level, which the reader never looks at. */
  lemma WriterKeepsLevel(a: AppenderDefine)
    requires a.kind == 1 || a.kind == 2
    ensures WriteAppender(a).Mapping?
    ensures Lookup(WriteAppender(a).entries, "level")
         == if a.level == UNKNOW then None else Some(Scalar(LevelToString(a.level)))
  {
    hide LevelToString;
    var level := Field("level", LevelToString(a.level), a.level != UNKNOW);
    var formatter := Field("formatter", a.formatter, a.formatter != "");
    var before := if a.kind == 1 then Field("type", FILE_TYPE, true) + Field("file", a.file, true)
                  else Field("type", STDOUT_TYPE, true);
    assert "type"[0] == 't' && "file"[0] == 'f' && "formatter"[0] == 'f' && "level"[0] == 'l';
    assert WriteAppender(a).entries == before + (level + formatter);
    GetAfter(before, level + formatter, "level");
    if a.level == UNKNOW {
      assert level + formatter == formatter;
      assert formatter != [] ==> formatter[1..] == [];
    } else {
      assert (level + formatter)[0] == Entry("level", Scalar(LevelToString(a.level)));
    }
  }

  // ------------------------------------------------------------- stability

  /** What the reader can yield: no appender level, a known type, a file only for files. */
  predicate Readable(a: AppenderDefine) {
    (a.kind == 1 || a.kind == 2) && a.level == UNKNOW && (a.kind == 2 ==> a.file == "")
  }

  predicate Representable(d: LogDefine) {
    forall a | a in d.appenders :: Readable(a)
  }

  /** A readable appender comes back from its own node. */
  lemma AppenderRoundTrip(a: AppenderDefine)
    requires Readable(a)
    ensures ReadAppender(WriteAppender(a)) == Keeps(a)
  {
    var n := WriteAppender(a);
    if a.kind == 1 {
      var kind := Field("type", FILE_TYPE, true);
      var rest := Field("file", a.file, true) + Field("formatter", a.formatter, a.formatter != "");
      assert n.entries == kind + rest;
      assert "type"[0] != "file"[0];
      GetAfter(kind, rest, "file");
      FormatterLast(n.entries[..2], a.formatter);
      assert n.entries == n.entries[..2] + Field("formatter", a.formatter, a.formatter != "");
    } else {
      FormatterLast(n.entries[..1], a.formatter);
      assert n.entries == n.entries[..1] + Field("formatter", a.formatter, a.formatter != "");
    }
  }

  lemma {:induction false} GetAfter(before: seq<Entry>, rest: seq<Entry>, key: string)
    requires forall e | e in before :: e.key != key
    ensures Lookup(before + rest, key) == Lookup(rest, key)
  {
    if before == [] {
      assert before + rest == rest;
    } else {
      assert (before + rest)[1..] == before[1..] + rest;
      GetAfter(before[1..], rest, key);
    }
  }

  lemma FormatterLast(before: seq<Entry>, formatter: string)
    requires forall e | e in before :: e.key != "formatter"
    ensures OptionalString(Mapping(before + Field("formatter", formatter, formatter != "")), "formatter")
         == Some(formatter)
  {
    GetAfter(before, Field("formatter", formatter, formatter != ""), "formatter");
  }

  lemma ReadAppendersEnd(items: seq<Node>, n: Node)
    requires ReadAppender(n).Keeps? && ReadAppenders(items).Some?
    ensures ReadAppenders(items + [n]) == Some(ReadAppenders(items).value + [ReadAppender(n).appender])
  {
    hide ReadAppender;
    assert (items + [n])[..|items|] == items;
  }

  lemma WriteAppendersEnd(s: seq<AppenderDefine>, a: AppenderDefine)
    ensures WriteAppenders(s + [a]) == WriteAppenders(s) + [WriteAppender(a)]
  {
    hide WriteAppender;
  }

  lemma AppendersRoundTripEnd(s: seq<AppenderDefine>)
    requires s != [] && Readable(s[|s| - 1])
    requires ReadAppenders(WriteAppenders(s[..|s| - 1])) == Some(s[..|s| - 1])
    ensures ReadAppenders(WriteAppenders(s)) == Some(s)
  {
    hide ReadAppenders, WriteAppenders, ReadAppender, WriteAppender, Readable;
    var init, last := s[..|s| - 1], s[|s| - 1];
    assert s == init + [last];
    AppenderRoundTrip(last);
    WriteAppendersEnd(init, last);
    ReadAppendersEnd(WriteAppenders(init), WriteAppender(last));
  }

  lemma NoAppenders()
    ensures ReadAppenders(WriteAppenders([])) == Some([])
  {
    assert WriteAppenders([]) == [];
  }

  lemma {:induction false} AppendersRoundTrip(appenders: seq<AppenderDefine>)
    requires forall a | a in appenders :: Readable(a)
    ensures ReadAppenders(WriteAppenders(appenders)) == Some(appenders)
    decreases |appenders|
  {
    hide ReadAppenders, WriteAppenders, Readable;
    if appenders == [] {
      NoAppenders();
    } else {
      AppendersRoundTrip(appenders[..|appenders| - 1]);
      AppendersRoundTripEnd(appenders);
    }
  }

  lemma {:induction false} ReadAppendersAreReadable(items: seq<Node>)
    requires ReadAppenders(items).Some?
    ensures forall a | a in ReadAppenders(items).value :: Readable(a)
    decreases |items|
  {
    if items != [] {
      ReadAppendersAreReadable(items[..|items| - 1]);
    }
  }

  /** Every appender the reader yields has type 1 or 2 and no level of its own. */
  lemma ReadIsRepresentable(n: Node)
    requires ReadDefine(n).Some?
    ensures Representable(ReadDefine(n).value)
  {
    match Get(n, "appenders")
    case Defined(a) => ReadAppendersAreReadable(ElementsOf(a));
    case _ =>
  }

  predicate FieldFor(f: seq<Entry>, key: string) {
    f == [] || (|f| == 1 && f[0].key == key)
  }

  function ValueIn(f: seq<Entry>): Option<Node> {
    if f == [] then None else Some(f[0].value)
  }

  lemma LookupField(f: seq<Entry>, rest: seq<Entry>, own: string, key: string)
    requires FieldFor(f, own)
    ensures Lookup(f + rest, key) == if own == key && f != [] then ValueIn(f) else Lookup(rest, key)
  {
    if f == [] {
      assert f + rest == rest;
    } else {
      assert (f + rest)[1..] == rest;
    }
  }

  /** In a mapping of optional fields with distinct keys each is found under its key. */
  lemma FieldsAreFound(k: seq<string>, a: seq<Entry>, b: seq<Entry>, c: seq<Entry>, d: seq<Entry>)
    requires |k| == 4 && forall i, j | 0 <= i < j < 4 :: k[i] != k[j]
    requires FieldFor(a, k[0]) && FieldFor(b, k[1]) && FieldFor(c, k[2]) && FieldFor(d, k[3])
    ensures var all := a + (b + (c + (d + [])));
            && Lookup(all, k[0]) == ValueIn(a) && Lookup(all, k[1]) == ValueIn(b)
            && Lookup(all, k[2]) == ValueIn(c) && Lookup(all, k[3]) == ValueIn(d)
  {
    hide Lookup;
    forall key | key in k ensures Lookup([], key) == None {
      LookupNothing(key);
    }
    forall key | key in k
      ensures Lookup(a + (b + (c + (d + []))), key)
           == if key == k[0] then ValueIn(a) else if key == k[1] then ValueIn(b)
              else if key == k[2] then ValueIn(c) else ValueIn(d)
    {
      LookupField(a, b + (c + (d + [])), k[0], key);
      LookupField(b, c + (d + []), k[1], key);
      LookupField(c, d + [], k[2], key);
      LookupField(d, [], k[3], key);
    }
  }

  lemma LookupNothing(key: string)
    ensures Lookup([], key) == None
  {
  }

  const KEYS: seq<string> := ["name", "level", "formatter", "appenders"]

  lemma KeysDiffer()
    ensures forall i, j | 0 <= i < j < 4 :: KEYS[i] != KEYS[j]
  {
    assert KEYS[0][0] == 'n' && KEYS[1][0] == 'l' && KEYS[2][0] == 'f' && KEYS[3][0] == 'a';
  }

  lemma WrittenFields(d: LogDefine)
    ensures var n := WriteDefine(d);
            && Get(n, "name") == Defined(Scalar(d.name))
            && OptionalString(n, "level") == Some(if d.level == UNKNOW then "" else LevelToString(d.level))
            && OptionalString(n, "formatter") == Some(d.formatter)
            && Get(n, "appenders") == if d.appenders == [] then Undefined
                                      else Defined(Sequence(WriteAppenders(d.appenders)))
  {
    hide Lookup, LevelToString, WriteAppenders;
    var name := Field("name", d.name, true);
    var level := Field("level", LevelToString(d.level), d.level != UNKNOW);
    var formatter := Field("formatter", d.formatter, d.formatter != "");
    var appenders :=
      if d.appenders == [] then [] else [Entry("appenders", Sequence(WriteAppenders(d.appenders)))];
    assert WriteDefine(d).entries == name + (level + (formatter + (appenders + [])));
    KeysDiffer();
    FieldsAreFound(KEYS, name, level, formatter, appenders);
  }

  lemma LevelRoundTrip(l: Level)
    ensures LevelFromString(LevelToString(l)) == l
    ensures LevelFromString("") == UNKNOW
  {
    match l
    case UNKNOW =>
      assert "UNKNOW"[0] == 'U';
    case DEBUG =>
    case INFO =>
      assert "INFO"[0] == 'I';
    case WARN =>
      assert "WARN"[0] == 'W';
    case ERROR =>
      assert "ERROR"[0] == 'E';
    case FATAL =>
      assert "FATAL"[0] == 'F';
  }

  /** What is read back of a written definition, given what its appenders read back as. */
  lemma ReadWritten(d: LogDefine)
    ensures var appenders := ReadAppenders(WriteAppenders(d.appenders));
            ReadDefine(WriteDefine(d)) ==
              if appenders.None? then None
              else Some(LogDefine(d.name, d.level, d.formatter, appenders.value))
  {
    WrittenFields(d);
    LevelRoundTrip(d.level);
    hide LevelFromString;
    hide LevelToString;
    hide WriteDefine;
    hide Get;
    hide OptionalString;
    assert d.appenders == [] ==> WriteAppenders(d.appenders) == [];
  }

  /** A definition survives writing and reading exactly when it is representable: a level on
      an appender is written but not read back. */
  lemma DefineRoundTrip(d: LogDefine)
    ensures ReadDefine(WriteDefine(d)) == Some(d) <==> Representable(d)
  {
    ReadWritten(d);
    if Representable(d) {
      AppendersRoundTrip(d.appenders);
    }
    hide WriteDefine;
    hide ReadDefine;
    if ReadDefine(WriteDefine(d)) == Some(d) {
      ReadIsRepresentable(WriteDefine(d));
    }
  }

  /** For every node the reader accepts, writing what it read and reading it again changes
      nothing. */
  lemma DefineIsStable(n: Node)
    requires ReadDefine(n).Some?
    ensures ReadDefine(WriteDefine(ReadDefine(n).value)) == ReadDefine(n)
  {
    ReadIsRepresentable(n);
    DefineRoundTrip(ReadDefine(n).value);
  }

  // ------------------------------------------------------ sets of definitions

  function ReadAll(items: seq<Node>): (r: Option<seq<LogDefine>>)
    ensures r.Some? ==> |r.value| == |items|
    decreases |items|
  {
    if items == [] then Some([])
    else
      var init := ReadAll(items[..|items| - 1]);
      var last := ReadDefine(items[|items| - 1]);
      if init.None? || last.None? then None else Some(init.value + [last.value])
  }

  /** The cast to std::set<LogDefine>: sorted by name, the first of a name wins. */
  function ReadSet(n: Node): Option<seq<LogDefine>> {
    var all := ReadAll(ElementsOf(n));
    if all.None? then None else Some(InsertAll(all.value, NameLess))
  }

  /** A mapping in which some index below its size is no key is no set: that element has no
      name. */
  lemma MappingIsNoSet(n: Node, i: nat)
    requires n.Mapping? && i < |n.entries| && Lookup(n.entries, Decimal(i)).None?
    ensures ReadSet(n).None?
  {
    hide Decimal, Lookup;
    var items := ElementsOf(n);
    assert items[i] == Null && ReadDefine(Null).None?;
    assert items[..i + 1][i] == Null;
    ReadAllFails(items, i + 1);
  }

  function WriteAll(s: seq<LogDefine>): (ns: seq<Node>)
    ensures |ns| == |s|
  {
    seq(|s|, i requires 0 <= i < |s| => WriteDefine(s[i]))
  }

  function WriteSet(s: seq<LogDefine>): Node {
    Sequence(WriteAll(s))
  }

  predicate DefineSet(s: seq<LogDefine>) {
    Sorted(s, NameLess)
  }

  lemma {:induction false} ReadAllRepresentable(items: seq<Node>)
    requires ReadAll(items).Some?
    ensures forall d | d in ReadAll(items).value :: Representable(d)
    decreases |items|
  {
    if items != [] {
      ReadAllRepresentable(items[..|items| - 1]);
      ReadIsRepresentable(items[|items| - 1]);
    }
  }

  lemma WriteAllEnd(s: seq<LogDefine>, d: LogDefine)
    ensures WriteAll(s + [d]) == WriteAll(s) + [WriteDefine(d)]
  {
  }

  lemma ReadAllEnd(items: seq<Node>, n: Node)
    ensures ReadAll(items + [n]) == if ReadAll(items).None? || ReadDefine(n).None? then None
                                    else Some(ReadAll(items).value + [ReadDefine(n).value])
  {
    assert (items + [n])[..|items|] == items;
  }

  lemma ReadAllWrittenEnd(s: seq<LogDefine>)
    requires s != [] && Representable(s[|s| - 1])
    requires ReadAll(WriteAll(s[..|s| - 1])) == Some(s[..|s| - 1])
    ensures ReadAll(WriteAll(s)) == Some(s)
  {
    hide WriteAll, ReadAll, ReadDefine, WriteDefine, Representable;
    var init, last := s[..|s| - 1], s[|s| - 1];
    assert s == init + [last];
    WriteAllEnd(init, last);
    ReadAllEnd(WriteAll(init), WriteDefine(last));
    DefineRoundTrip(last);
  }

  lemma {:induction false} ReadAllWritten(s: seq<LogDefine>)
    requires forall d | d in s :: Representable(d)
    ensures ReadAll(WriteAll(s)) == Some(s)
    decreases |s|
  {
    if s == [] {
      assert WriteAll(s) == [];
    } else {
      hide WriteAll, ReadAll, Representable;
      ReadAllWritten(s[..|s| - 1]);
      ReadAllWrittenEnd(s);
    }
  }

  /** A set that was read is sorted and unique by name, has appenders of type 1 or 2 only,
      and writing and reading it again changes nothing. */
  lemma SetIsStable(n: Node)
    requires ReadSet(n).Some?
    ensures DefineSet(ReadSet(n).value)
    ensures forall d | d in ReadSet(n).value :: Representable(d)
    ensures ReadSet(WriteSet(ReadSet(n).value)) == ReadSet(n)
  {
    var all := ReadAll(ElementsOf(n)).value;
    var s := ReadSet(n).value;
    NameLessIsStrict();
    InsertAllSorted(all, NameLess);
    ReadAllRepresentable(ElementsOf(n));
    ReadAllWritten(s);
    InsertSorted(s, NameLess);
  }

  /** The definition kept for a name is the first one read with it, and no name is lost. */
  lemma {:induction false} FirstOfNameWins(all: seq<LogDefine>, k: nat)
    requires k < |all|
    requires forall j | 0 <= j < k :: all[j].name != all[k].name
    ensures all[k] in InsertAll(all, NameLess)
    decreases |all|
  {
    var init, last := all[..|all| - 1], all[|all| - 1];
    var s := InsertAll(init, NameLess);
    NameLessIsStrict();
    InsertAllSorted(init, NameLess);
    if k == |all| - 1 {
      assert forall d | d in s :: d in init && d.name != last.name;
      InsertNew(s, last);
    } else {
      FirstOfNameWins(init, k);
      InsertKeepsOld(s, last, all[k]);
    }
  }

  lemma {:induction false} InsertNew(s: seq<LogDefine>, x: LogDefine)
    requires forall d | d in s :: d.name != x.name
    ensures x in Insert(s, x, NameLess)
  {
    if s != [] {
      assert s[0] in s;
      StrLessTotal(x.name, s[0].name);
      InsertNew(s[1..], x);
    }
  }

  lemma {:induction false} InsertKeepsOld(s: seq<LogDefine>, x: LogDefine, y: LogDefine)
    requires y in s
    ensures y in Insert(s, x, NameLess)
  {
    if !NameLess(x, s[0]) && NameLess(s[0], x) && y != s[0] {
      InsertKeepsOld(s[1..], x, y);
    }
  }

  // -------------------------------------------------------------- the casts

  /** The loop over the appenders; None once an element throws. */
  method LoadAppenders(items: seq<Node>) returns (r: Option<seq<AppenderDefine>>)
    ensures r == ReadAppenders(items)
  {
    var appenders: seq<AppenderDefine> := [];
    var x := 0;
    while x < |items|
      invariant 0 <= x <= |items|
      invariant ReadAppenders(items[..x]) == Some(appenders)
    {
      var a := items[x];
      assert items[..x + 1][..x] == items[..x];
      x := x + 1;
      var e := ReadAppender(a);
      if e.Skips? {
        continue;
      }
      if e.Fails? {
        AppendersFail(items, x);
        return None;
      }
      appenders := appenders + [e.appender];
    }
    assert items[..x] == items;
    r := Some(appenders);
  }

  lemma {:induction false} AppendersFail(items: seq<Node>, x: nat)
    requires x <= |items| && ReadAppenders(items[..x]).None?
    ensures ReadAppenders(items).None?
    decreases |items| - x
  {
    if x == |items| {
      assert items[..x] == items;
    } else {
      assert items[..x + 1][..x] == items[..x];
      AppendersFail(items, x + 1);
    }
  }

  /** The loop of the set cast, inserting one definition at a time. */
  method LoadSet(n: Node) returns (r: Option<seq<LogDefine>>)
    ensures r == ReadSet(n)
  {
    hide Insert, InsertAll, NameLess, ReadDefine, ReadAll, Elements;
    var items := ElementsOf(n);
    var set_: seq<LogDefine> := [];
    ghost var read: seq<LogDefine> := [];
    var i := 0;
    ReadAllUpTo(items, 0);
    InsertAllNil(NameLess);
    while i < |items|
      invariant 0 <= i <= |items|
      invariant ReadAll(items[..i]) == Some(read)
      invariant set_ == InsertAll(read, NameLess)
    {
      ReadAllUpTo(items, i + 1);
      var d := ReadDefine(items[i]);
      if d.None? {
        ReadAllFails(items, i + 1);
        return None;
      }
      InsertAllEnd(read, d.value, NameLess);
      read := read + [d.value];
      set_ := Insert(set_, d.value, NameLess);
      i := i + 1;
    }
    ReadAllUpTo(items, i);
    r := Some(set_);
  }

  lemma ReadAllUpTo(items: seq<Node>, i: nat)
    requires i <= |items|
    ensures i == 0 ==> ReadAll(items[..i]) == Some([])
    ensures i == |items| ==> items[..i] == items
    ensures i > 0 ==> ReadAll(items[..i]) == if ReadAll(items[..i - 1]).None? || ReadDefine(items[i - 1]).None? then None
                                            else Some(ReadAll(items[..i - 1]).value + [ReadDefine(items[i - 1]).value])
  {
    hide ReadDefine;
    assert i > 0 ==> items[..i][..i - 1] == items[..i - 1];
  }

  lemma {:induction false} ReadAllFails(items: seq<Node>, x: nat)
    requires x <= |items| && ReadAll(items[..x]).None?
    ensures ReadAll(items).None?
    decreases |items| - x
  {
    if x == |items| {
      assert items[..x] == items;
    } else {
      assert items[..x + 1][..x] == items[..x];
      ReadAllFails(items, x + 1);
    }
  }
}
