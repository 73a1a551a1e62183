/**
 Appenders, loggers and their manager: the objects of src/log.h and src/log.cc.

 A sink records the texts an appender wrote.  Locks are the subject of LockOrder.
 */
module Loggers {
  import opened Wrappers
  import opened LogDefines
  import opened Pattern

  /** What a log statement records.  Numbers are carried as the text they print as, and
      `stamp` is strftime applied to the event's time. */
  datatype Line = Line(content: string, elapse: string, threadId: string, fiberId: string,
                       threadName: string, file: string, line: string, stamp: string -> string)

  /** An event and the logger its statement names. */
  datatype LogEvent = LogEvent(logger: Logger, line: Line)

  /** FormatItem::format; `name` is the name of the event's own logger. */
  function Render(item: FormatItem, level: Level, name: string, e: Line): string {
    match item
    case StringItem(s) => s
    case MessageItem => e.content
    case LevelItem => LevelToString(level)
    case ElapseItem => e.elapse
    case NameItem => name
    case ThreadIdItem => e.threadId
    case NewLineItem => "\n"
    case DateTimeItem(format) => e.stamp(format)
    case FilenameItem => e.file
    case LineItem => e.line
    case TabItem => "\t"
    case FiberIdItem => e.fiberId
    case ThreadNameItem => e.threadName
  }

  /** LogFormatter::format. */
  function Format(items: seq<FormatItem>, level: Level, name: string, e: Line): string {
    if items == [] then "" else Render(items[0], level, name, e) + Format(items[1..], level, name, e)
  }

  lemma FormatFirst(items: seq<FormatItem>, level: Level, name: string, e: Line)
    ensures items == [] ==> Format(items, level, name, e) == ""
    ensures items != [] ==>
              Format(items, level, name, e) == Render(items[0], level, name, e) + Format(items[1..], level, name, e)
  {
  }

  lemma {:induction false} FormatAt(items: seq<FormatItem>, k: nat, level: Level, name: string, e: Line)
    requires k < |items|
    ensures Format(items, level, name, e)
         == Format(items[..k], level, name, e) + Render(items[k], level, name, e) + Format(items[k + 1..], level, name, e)
  {
    hide Format, Render;
    FormatFirst(items, level, name, e);
    FormatFirst(items[..k], level, name, e);
    if k > 0 {
      FormatAt(items[1..], k - 1, level, name, e);
      assert items[..k][1..] == items[1..][..k - 1] && items[1..][k..] == items[k + 1..];
    }
  }

  // ------------------------------------------------------ what a pattern prints

  /** What a piece of a pattern prints of an event. */
  ghost predicate Says(p: Piece, text: string, level: Level, name: string, e: Line) {
    match p
    case Text(literal) => text == literal
    case Unclosed => text == "<<pattern_error>>"
    case Spec(kind, fmt) =>
      && (kind == "m" ==> text == e.content)
      && (kind == "p" ==> exists i | 0 <= i < |LEVELS| :: LEVELS[i] == level && text == UPPER_NAMES[i])
      && (kind == "r" ==> text == e.elapse)
      && (kind == "c" ==> text == name)
      && (kind == "t" ==> text == e.threadId)
      && (kind == "n" ==> text == "\n")
      && (kind == "d" ==> text == e.stamp(if fmt == "" then "%Y-%m-%d %H:%M:%S" else fmt))
      && (kind == "f" ==> text == e.file)
      && (kind == "l" ==> text == e.line)
      && (kind == "T" ==> text == "\t")
      && (kind == "F" ==> text == e.fiberId)
      && (kind == "N" ==> text == e.threadName)
      && (kind !in ["m", "p", "r", "c", "t", "n", "d", "f", "l", "T", "F", "N"] ==>
            text == "<<error_format %" + kind + ">>")
  }

  function Concat(texts: seq<string>): string {
    if texts == [] then "" else texts[0] + Concat(texts[1..])
  }

  lemma LevelSays(level: Level)
    ensures exists i | 0 <= i < |LEVELS| :: LEVELS[i] == level && LevelToString(level) == UPPER_NAMES[i]
  {
    hide LevelToString, LEVELS, UPPER_NAMES;
    NumIsPosition(level);
    LevelNames(Num(level));
  }

  lemma PieceSays(p: Piece, level: Level, name: string, e: Line)
    ensures Says(p, Render(ItemOf(EntryOf(p)), level, name, e), level, name, e)
  {
    hide LevelToString, LEVELS, UPPER_NAMES;
    LevelSays(level);
  }

  lemma {:induction false} FormatIsConcat(items: seq<FormatItem>, texts: seq<string>, level: Level, name: string, e: Line)
    requires |texts| == |items| && forall k | 0 <= k < |items| :: texts[k] == Render(items[k], level, name, e)
    ensures Format(items, level, name, e) == Concat(texts)
    decreases |items|
  {
    hide Render;
    if items != [] {
      FormatIsConcat(items[1..], texts[1..], level, name, e);
    }
  }

  /** An event's text is, piece by piece, what the pattern says. */
  lemma PatternSays(pattern: string, level: Level, name: string, e: Line) returns (texts: seq<string>)
    ensures Format(ItemsOf(pattern), level, name, e) == Concat(texts) && |texts| == |Parse(pattern)|
    ensures forall k | 0 <= k < |texts| :: Says(Parse(pattern)[k], texts[k], level, name, e)
  {
    hide Says, Render, Parse, ItemOf, EntryOf, Format;
    var items := ItemsOf(pattern);
    texts := seq(|items|, k requires 0 <= k < |items| => Render(items[k], level, name, e));
    FormatIsConcat(items, texts, level, name, e);
    forall k | 0 <= k < |texts| ensures Says(Parse(pattern)[k], texts[k], level, name, e) {
      PieceSays(Parse(pattern)[k], level, name, e);
    }
  }

  predicate Accepts(threshold: Level, level: Level) {
    Num(level) >= Num(threshold)
  }

  /** A threshold lets through what it does not come after in the list of levels. */
  lemma AcceptsByList()
    ensures forall x, y :: Accepts(x, y) <==> NotAfter(x, y)
  {
    forall x, y ensures Accepts(x, y) <==> NotAfter(x, y) {
      NumByList(x, y);
    }
  }

  function TextFor(f: LogFormatter, level: Level, e: LogEvent): string {
    Format(f.m_items, level, e.logger.m_name, e.line)
  }

  // --------------------------------------------------------------- appenders

  /** What a definition says of an appender: its own pattern, if it has one. */
  datatype AppenderView = AppenderView(kind: int, file: string, level: Level, own: Option<string>)

  class LogAppender {
    const kind: int
    const m_filename: string
    var m_level: Level
    var m_hasFormatter: bool
    var m_formatter: LogFormatter?
    var sink: seq<string>

    constructor (kind: int, filename: string)
      ensures this.kind == kind && m_filename == filename && m_level == DEBUG
      ensures !m_hasFormatter && m_formatter == null && sink == []
    {
      this.kind := kind;
      m_filename := filename;
      m_level := DEBUG;
      m_hasFormatter := false;
      m_formatter := null;
      sink := [];
    }

    function View(): AppenderView
      reads this
    {
      AppenderView(kind, m_filename, m_level,
                   if m_hasFormatter && m_formatter != null then Some(m_formatter.m_pattern) else None)
    }

    method SetFormatter(val: LogFormatter?)
      modifies this`m_formatter, this`m_hasFormatter
      ensures m_formatter == val && (m_hasFormatter <==> val != null)
    {
      m_formatter := val;
      if m_formatter != null {
        m_hasFormatter := true;
      } else {
        m_hasFormatter := false;
      }
    }

    /** Writes the event when its level passes; the formatter is used unchecked. */
    method Log(level: Level, e: LogEvent) returns (written: seq<string>)
      requires m_formatter != null
      modifies this`sink
      ensures written == if Accepts(m_level, level) then [TextFor(m_formatter, level, e)] else []
      ensures written != [] <==> NotAfter(m_level, level)
      ensures sink == old(sink) + written
    {
      AcceptsByList();
      written := [];
      if Accepts(m_level, level) {
        written := [Format(m_formatter.m_items, level, e.logger.m_name, e.line)];
        sink := sink + written;
      }
    }
  }

  /** One text written by one appender. */
  datatype Delivery = Delivery(appender: LogAppender, text: string)

  /** What an event becomes at a list of appenders: one text at each position that accepts
      its level, in order. */
  function Deliveries(apps: seq<LogAppender>, level: Level, e: LogEvent): seq<Delivery>
    requires forall a | a in apps :: a.m_formatter != null
    reads apps
  {
    if apps == [] then []
    else
      var init := Deliveries(apps[..|apps| - 1], level, e);
      var last := apps[|apps| - 1];
      if Accepts(last.m_level, level)
      then init + [Delivery(last, TextFor(last.m_formatter, level, e))] else init
  }

  function TextsOf(out: seq<Delivery>, a: LogAppender): seq<string> {
    if out == [] then []
    else
      var init := TextsOf(out[..|out| - 1], a);
      if out[|out| - 1].appender == a then init + [out[|out| - 1].text] else init
  }

  lemma TextsOfEnd(out: seq<Delivery>, d: Delivery, a: LogAppender)
    ensures TextsOf(out + [d], a) == TextsOf(out, a) + if d.appender == a then [d.text] else []
  {
    assert (out + [d])[..|out|] == out;
  }

  // ------------------------------------------------------------------ loggers

  /** A logger seen from outside: `pattern` is its formatter's. */
  datatype LoggerView = LoggerView(level: Level, pattern: Option<string>, appenders: seq<AppenderView>)

  const DEFAULT_PATTERN: string :=
    "%d{%Y-%m-%d %H:%M:%S}" + "%T%t%T%N%T%F%T" + "[%p]%T[%c]%T" + "%f:%l%T%m%n"

  /** A specification with a one-letter type, before a percent sign, a bracket, a colon or
      the end. */
  lemma Letter(kind: string, rest: string, lit: string)
    requires |kind| == 1 && ('a' <= kind[0] <= 'z' || 'A' <= kind[0] <= 'Z')
    requires rest != "" ==> rest[0] in ['%', '[', ']', ':']
    ensures Grammar("%" + (kind + rest), lit) == Flush(lit) + [Spec(kind, "")] + Grammar(rest, "")
  {
    PlainSpecIsRead(kind, rest, lit);
  }

  lemma Bracket(text: string, rest: string)
    requires '%' !in text
    ensures Grammar(text + rest, "") == Grammar(rest, text)
  {
    GrammarSkipsPlain(text, rest, "");
    assert "" + text == text;
  }

  /** The last part of the default pattern: the place and the message. */
  lemma PlaceParses()
    ensures Parse("%f:%l%T%m%n") == [Spec("f", ""), Text(":"), Spec("l", ""), Spec("T", ""), Spec("m", ""), Spec("n", "")]
  {
    hide Grammar;
    GrammarEmpty();
    Letter("n", "", "");
    Letter("m", "%n", "");
    Letter("T", "%m%n", "");
    Letter("l", "%T%m%n", ":");
    Bracket(":", "%l%T%m%n");
    Letter("f", ":%l%T%m%n", "");
    assert "%" + ("n" + "") == "%n" && "%" + ("m" + "%n") == "%m%n" && "%" + ("T" + "%m%n") == "%T%m%n";
    assert "%" + ("l" + "%T%m%n") == "%l%T%m%n" && ":" + "%l%T%m%n" == ":%l%T%m%n";
    assert "%" + ("f" + ":%l%T%m%n") == "%f:%l%T%m%n";
  }

  lemma GrammarEmpty()
    ensures Grammar("", "") == []
  {
  }

  /** The middle part: level and logger in brackets. */
  lemma NamesParse(rest: string)
    requires rest != "" && rest[0] == '%'
    ensures Parse("[%p]%T[%c]%T" + rest)
         == [Text("["), Spec("p", ""), Text("]"), Spec("T", ""), Text("["), Spec("c", ""), Text("]"), Spec("T", "")]
            + Parse(rest)
  {
    hide Grammar;
    var r1 := "%" + ("T" + rest);
    var r2 := "]" + r1;
    var r3 := "%" + ("c" + r2);
    var r4 := "[" + r3;
    var r5 := "%" + ("T" + r4);
    var r6 := "]" + r5;
    var r7 := "%" + ("p" + r6);
    Letter("T", rest, "]");
    Bracket("]", r1);
    Letter("c", r2, "[");
    Bracket("[", r3);
    Letter("T", r4, "]");
    Bracket("]", r5);
    Letter("p", r6, "[");
    Bracket("[", r7);
    assert "[%p]%T[%c]%T" + rest == "[" + r7;
  }

  /** The first part: time, thread and fiber, with tabs between. */
  lemma ThreadParses(rest: string)
    requires rest != "" && rest[0] == '['
    ensures Parse("%T%t%T%N%T%F%T" + rest)
         == [Spec("T", ""), Spec("t", ""), Spec("T", ""), Spec("N", ""), Spec("T", ""), Spec("F", ""), Spec("T", "")]
            + Parse(rest)
  {
    hide Grammar;
    var r1 := "%" + ("T" + rest);
    var r2 := "%" + ("F" + r1);
    var r3 := "%" + ("T" + r2);
    var r4 := "%" + ("N" + r3);
    var r5 := "%" + ("T" + r4);
    var r6 := "%" + ("t" + r5);
    Letter("T", rest, "");
    Letter("F", r1, "");
    Letter("T", r2, "");
    Letter("N", r3, "");
    Letter("T", r4, "");
    Letter("t", r5, "");
    Letter("T", r6, "");
    assert "%T%t%T%N%T%F%T" + rest == "%" + ("T" + r6);
  }

  lemma TimeParses(rest: string)
    ensures Parse("%d{%Y-%m-%d %H:%M:%S}" + rest) == [Spec("d", "%Y-%m-%d %H:%M:%S")] + Parse(rest)
  {
    TimeText();
    TimeParsesAs("%Y-%m-%d %H:%M:%S", rest);
  }

  lemma TimeText()
    ensures "%d{%Y-%m-%d %H:%M:%S}" == "%d{" + "%Y-%m-%d %H:%M:%S" + "}"
    ensures '}' !in "%Y-%m-%d %H:%M:%S"
  {
  }

  lemma TimeParsesAs(fmt: string, rest: string)
    requires '}' !in fmt
    ensures Parse("%d{" + fmt + "}" + rest) == [Spec("d", fmt)] + Parse(rest)
  {
    hide Grammar;
    BracedSpecIsRead("d", fmt, rest, "");
    assert "%d{" + fmt + "}" + rest == "%" + ("d" + ("{" + (fmt + "}" + rest)));
  }

  /** What a new logger's lines consist of: the time, the thread's id and name, the fiber, the
      level and the logger's name in brackets, file and line, and the message. */
  lemma DefaultLine()
    ensures Parse(DEFAULT_PATTERN)
         == [Spec("d", "%Y-%m-%d %H:%M:%S")] +
            ([Spec("T", ""), Spec("t", ""), Spec("T", ""), Spec("N", ""), Spec("T", ""), Spec("F", ""), Spec("T", "")] +
             ([Text("["), Spec("p", ""), Text("]"), Spec("T", ""), Text("["), Spec("c", ""), Text("]"), Spec("T", "")] +
              [Spec("f", ""), Text(":"), Spec("l", ""), Spec("T", ""), Spec("m", ""), Spec("n", "")]))
  {
    hide Parse;
    var names := "[%p]%T[%c]%T" + "%f:%l%T%m%n";
    PlaceParses();
    NamesParse("%f:%l%T%m%n");
    ThreadParses(names);
    TimeParses("%T%t%T%N%T%F%T" + names);
    InFour("%d{%Y-%m-%d %H:%M:%S}", "%T%t%T%N%T%F%T", "[%p]%T[%c]%T", "%f:%l%T%m%n");
  }

  lemma InFour(a: string, b: string, c: string, d: string)
    ensures a + b + c + d == a + (b + (c + d))
  {
  }

  /** A new logger. */
  const FRESH_VIEW: LoggerView := LoggerView(DEBUG, Some(DEFAULT_PATTERN), [])

  function RemoveFirst<T(==)>(s: seq<T>, x: T): seq<T> {
    if s == [] then [] else if s[0] == x then s[1..] else [s[0]] + RemoveFirst(s[1..], x)
  }

  lemma {:induction false} RemoveFirstAt<T>(s: seq<T>, x: T, k: nat)
    requires k <= |s| && forall i | 0 <= i < k :: s[i] != x
    ensures k < |s| && s[k] == x ==> RemoveFirst(s, x) == s[..k] + s[k + 1..]
    ensures k == |s| ==> RemoveFirst(s, x) == s
  {
    if k > 0 {
      RemoveFirstAt(s[1..], x, k - 1);
      if k < |s| && s[k] == x {
        assert [s[0]] + (s[1..][..k - 1] + s[1..][k..]) == s[..k] + s[k + 1..];
      }
    }
  }

  ghost function ViewsOf(apps: seq<LogAppender>): (r: seq<AppenderView>)
    reads apps
    ensures |r| == |apps| && forall i | 0 <= i < |apps| :: r[i] == apps[i].View()
  {
    if apps == [] then [] else ViewsOf(apps[..|apps| - 1]) + [apps[|apps| - 1].View()]
  }

  lemma ViewsOfEnd(apps: seq<LogAppender>, a: LogAppender)
    ensures ViewsOf(apps + [a]) == ViewsOf(apps) + [a.View()]
  {
    assert (apps + [a])[..|apps|] == apps;
  }

  twostate lemma ViewsStay(apps: seq<LogAppender>)
    requires forall a | a in apps :: a.View() == old(a.View())
    ensures ViewsOf(apps) == old(ViewsOf(apps))
  {
    assert forall i | 0 <= i < |apps| :: ViewsOf(apps)[i] == old(ViewsOf(apps))[i];
  }

  ghost predicate Distinct<T>(s: seq<T>) {
    forall i, j | 0 <= i < j < |s| :: s[i] != s[j]
  }

  class Logger {
    const m_name: string
    var m_level: Level
    var m_appenders: seq<LogAppender>
    var m_formatter: LogFormatter?
    var m_root: Logger?

    constructor (name: string)
      ensures m_name == name && m_root == null && m_appenders == [] && View() == FRESH_VIEW
      ensures m_formatter != null && fresh(m_formatter) && m_formatter.Sound()
    {
      m_name := name;
      m_level := DEBUG;
      m_appenders := [];
      m_root := null;
      m_formatter := new LogFormatter(DEFAULT_PATTERN);
    }

    /** The logger and its appenders. */
    ghost function Objects(): set<object>
      reads this
    {
      {this as object} + set o: object | o in m_appenders
    }

    ghost function View(): LoggerView
      reads this`m_level, this`m_formatter, this`m_appenders, m_appenders
    {
      LoggerView(m_level, if m_formatter == null then None else Some(m_formatter.m_pattern), ViewsOf(m_appenders))
    }

    /** Every attached appender has a formatter, and one without its own shares this logger's. */
    ghost predicate Inherits()
      reads this, m_appenders
    {
      m_formatter != null &&
      forall a | a in m_appenders :: a.m_formatter != null && (!a.m_hasFormatter ==> a.m_formatter == m_formatter)
    }

    /** ... none is attached twice, and every formatter has the items of its pattern. */
    ghost predicate Tidy()
      reads this, m_appenders
    {
      && Inherits() && Distinct(m_appenders)
      && m_formatter.Sound() && forall a | a in m_appenders :: a.m_formatter.Sound()
    }

    /** An untouched logger with untouched appenders. */
    twostate lemma Stays()
      requires unchanged(this) && forall a | a in m_appenders :: unchanged(a)
      ensures Tidy() == old(Tidy()) && View() == old(View())
    {
      ViewsStay(m_appenders);
    }

    /** An untouched logger whose appenders have written at most. */
    twostate lemma StaysBarSinks()
      requires unchanged(this)
      requires forall a | a in m_appenders ::
                 unchanged(a`m_level) && unchanged(a`m_hasFormatter) && unchanged(a`m_formatter)
      ensures Tidy() == old(Tidy()) && View() == old(View())
    {
      hide LogFormatter.Sound, Distinct, ViewsOf;
      ViewsStay(m_appenders);
    }

    method SetFormatter(val: LogFormatter?)
      modifies this`m_formatter, m_appenders
      ensures m_formatter == val
      ensures forall a | a in m_appenders ::
                && a.m_formatter == (if a.m_hasFormatter then old(a.m_formatter) else val)
                && a.m_hasFormatter == old(a.m_hasFormatter) && a.m_level == old(a.m_level) && a.sink == old(a.sink)
      ensures old(Inherits()) && val != null ==> Inherits()
    {
      m_formatter := val;
      var i := 0;
      while i < |m_appenders|
        invariant 0 <= i <= |m_appenders|
        invariant m_formatter == val
        invariant forall a | a in m_appenders ::
                    a.m_hasFormatter == old(a.m_hasFormatter) && a.m_level == old(a.m_level) && a.sink == old(a.sink)
        invariant forall a | a in m_appenders ::
                    a.m_formatter == old(a.m_formatter) || (!a.m_hasFormatter && a.m_formatter == val)
        invariant forall j | 0 <= j < i && !m_appenders[j].m_hasFormatter :: m_appenders[j].m_formatter == val
      {
        if !m_appenders[i].m_hasFormatter {
          m_appenders[i].m_formatter := m_formatter;
        }
        i := i + 1;
      }
    }

    /** A pattern with an error is ignored. */
    method SetPattern(val: string)
      modifies this`m_formatter, m_appenders
      ensures HasError(Parse(val)) ==> m_formatter == old(m_formatter)
      ensures HasError(Parse(val)) ==> forall a | a in m_appenders :: a.m_formatter == old(a.m_formatter)
      ensures !HasError(Parse(val)) ==>
                m_formatter != null && fresh(m_formatter) && m_formatter.m_pattern == val && m_formatter.Sound()
      ensures !HasError(Parse(val)) ==>
                forall a | a in m_appenders ::
                  a.m_formatter == if a.m_hasFormatter then old(a.m_formatter) else m_formatter
      ensures forall a | a in m_appenders ::
                a.m_hasFormatter == old(a.m_hasFormatter) && a.m_level == old(a.m_level) && a.sink == old(a.sink)
      ensures old(Inherits()) ==> Inherits()
    {
      var f := new LogFormatter(val);
      if f.m_error {
        return;
      }
      SetFormatter(f);
    }

    /** An appender without a formatter takes this logger's.  The invariant survives exactly
        when the appender has none, has its own, or already has this logger's. */
    method AddAppender(a: LogAppender)
      modifies this`m_appenders, a`m_formatter
      ensures m_appenders == old(m_appenders) + [a]
      ensures a.m_formatter == if old(a.m_formatter) == null then m_formatter else old(a.m_formatter)
      ensures old(Inherits()) ==>
                (Inherits() <==> old(a.m_formatter) == null || a.m_hasFormatter || old(a.m_formatter) == m_formatter)
    {
      if a.m_formatter == null {
        a.m_formatter := m_formatter;
      }
      m_appenders := m_appenders + [a];
      assert a in m_appenders;
      assert forall b | b in m_appenders :: b == a || b in old(m_appenders);
      assert forall b | b in old(m_appenders) :: b in m_appenders;
    }

    /** Removes the first position of the appender. */
    method DelAppender(a: LogAppender)
      modifies this`m_appenders
      ensures m_appenders == RemoveFirst(old(m_appenders), a)
      ensures old(Inherits()) ==> Inherits()
    {
      var i := 0;
      while i < |m_appenders|
        invariant 0 <= i <= |m_appenders| && m_appenders == old(m_appenders)
        invariant forall j | 0 <= j < i :: m_appenders[j] != a
      {
        if m_appenders[i] == a {
          RemoveFirstAt(m_appenders, a, i);
          m_appenders := m_appenders[..i] + m_appenders[i + 1..];
          assert forall b | b in m_appenders :: b in old(m_appenders);
          return;
        }
        i := i + 1;
      }
      RemoveFirstAt(m_appenders, a, i);
    }

    method ClearAppenders()
      modifies this`m_appenders
      ensures m_appenders == []
      ensures old(Inherits()) ==> Inherits()
    {
      m_appenders := [];
    }

    /** The list that serves an event: the logger's appenders or, when it has none, the root
        logger's if the event passes the root's level. */
    function Serving(level: Level): seq<LogAppender>
      reads this, m_root
    {
      if !Accepts(m_level, level) then []
      else if m_appenders != [] then m_appenders
      else if m_root != null && Accepts(m_root.m_level, level) then m_root.m_appenders
      else []
    }

    /** The root is its own logger's root or has none itself, and no formatter is missing. */
    ghost predicate Deliverable(level: Level)
      reads this, m_root, Serving(level)
    {
      && (m_root != null ==> m_root.m_root == null)
      && forall a | a in Serving(level) :: a.m_formatter != null
    }

    /** Each position of the serving list that accepts the level gets the event once, in
        order, formatted by its own formatter; no other appender is written to. */
    method Log(level: Level, e: LogEvent) returns (out: seq<Delivery>)
      requires Deliverable(level)
      modifies (set a | a in Serving(level))`sink
      ensures out == old(Deliveries(Serving(level), level, e))
      ensures forall a | a in old(Serving(level)) :: a.sink == old(a.sink) + TextsOf(out, a)
      ensures !NotAfter(m_level, level) ==> out == []
      decreases if m_root == null then 0 else 1
    {
      AcceptsByList();
      out := [];
      if Accepts(m_level, level) {
        if m_appenders != [] {
          out := LogEach(m_appenders, level, e);
        } else if m_root != null {
          out := m_root.Log(level, e);
        }
      }
    }
  }

  /** The loop over the appenders. */
  method LogEach(apps: seq<LogAppender>, level: Level, e: LogEvent) returns (out: seq<Delivery>)
    requires forall a | a in apps :: a.m_formatter != null
    modifies (set a | a in apps)`sink
    ensures out == old(Deliveries(apps, level, e))
    ensures forall a | a in apps :: a.sink == old(a.sink) + TextsOf(out, a)
  {
    hide TextFor, TextsOf;
    out := [];
    var i := 0;
    forall a | a in apps ensures TextsOf(out, a) == [] {
      TextsOfNone(a);
    }
    while i < |apps|
      invariant 0 <= i <= |apps|
      invariant out == old(Deliveries(apps[..i], level, e))
      invariant forall a | a in apps :: a.sink == old(a.sink) + TextsOf(out, a)
    {
      var written := apps[i].Log(level, e);
      assert apps[..i + 1][..i] == apps[..i];
      if written != [] {
        forall a | a in apps ensures TextsOf(out + [Delivery(apps[i], written[0])], a)
                                  == TextsOf(out, a) + if apps[i] == a then [written[0]] else []
        {
          TextsOfEnd(out, Delivery(apps[i], written[0]), a);
        }
        out := out + [Delivery(apps[i], written[0])];
      }
      i := i + 1;
    }
    assert apps[..i] == apps;
  }

  /** The positions of a list that accept a level. */
  ghost predicate ArePositions(ps: seq<nat>, apps: seq<LogAppender>, level: Level)
    reads apps
  {
    && (forall i, j | 0 <= i < j < |ps| :: ps[i] < ps[j])
    && (forall i | 0 <= i < |ps| :: ps[i] < |apps| && NotAfter(apps[ps[i]].m_level, level))
    && (forall p | 0 <= p < |apps| && NotAfter(apps[p].m_level, level) :: p in ps)
  }

  lemma PositionsEnd(ps: seq<nat>, apps: seq<LogAppender>, level: Level)
    requires apps != [] && ArePositions(ps, apps[..|apps| - 1], level)
    ensures ArePositions(ps + if Accepts(apps[|apps| - 1].m_level, level) then [|apps| - 1] else [], apps, level)
  {
    hide NotAfter, Accepts;
    AcceptsByList();
    var init := apps[..|apps| - 1];
    assert forall p | 0 <= p < |init| :: init[p] == apps[p];
  }

  /** Deliveries are exactly one per accepting position, in the order of the list. */
  lemma {:induction false} OneDeliveryPerPosition(apps: seq<LogAppender>, level: Level, e: LogEvent) returns (ps: seq<nat>)
    requires forall a | a in apps :: a.m_formatter != null
    ensures ArePositions(ps, apps, level)
    ensures |Deliveries(apps, level, e)| == |ps|
    ensures forall i | 0 <= i < |ps| ::
              Deliveries(apps, level, e)[i]
              == Delivery(apps[ps[i]], TextFor(apps[ps[i]].m_formatter, level, e))
    decreases |apps|
  {
    hide TextFor, Accepts, NotAfter;
    ps := [];
    if apps != [] {
      var init := apps[..|apps| - 1];
      ps := OneDeliveryPerPosition(init, level, e);
      PositionsEnd(ps, apps, level);
      assert forall i | 0 <= i < |ps| :: init[ps[i]] == apps[ps[i]];
      if Accepts(apps[|apps| - 1].m_level, level) {
        ps := ps + [|apps| - 1];
      } else {
        assert ps + [] == ps;
      }
    }
  }

  // ---------------------------------------------------------- sequences of calls

  /** One call on a logger or on one of its appenders, with fresh appenders and formatters
      that are not null.  Appenders are named by their position. */
  datatype LoggerCall =
    | AddFresh(kind: int, file: string, own: Option<string>)
    | Del(i: nat)
    | Clear
    | SetFormatter(pattern: string)
    | SetPattern(pattern: string)
    | SetAppenderFormatter(i: nat, pattern: string)
    | SetLevel(level: Level)
    | SetAppenderLevel(i: nat, level: Level)

  function Called(v: LoggerView, call: LoggerCall): LoggerView {
    match call
    case AddFresh(kind, file, own) => v.(appenders := v.appenders + [AppenderView(kind, file, DEBUG, own)])
    case Del(i) => if i < |v.appenders| then v.(appenders := v.appenders[..i] + v.appenders[i + 1..]) else v
    case Clear => v.(appenders := [])
    case SetFormatter(pattern) => v.(pattern := Some(pattern))
    case SetPattern(pattern) => if HasError(Parse(pattern)) then v else v.(pattern := Some(pattern))
    case SetAppenderFormatter(i, pattern) =>
      if i < |v.appenders| then v.(appenders := v.appenders[i := v.appenders[i].(own := Some(pattern))]) else v
    case SetLevel(level) => v.(level := level)
    case SetAppenderLevel(i, level) =>
      if i < |v.appenders| then v.(appenders := v.appenders[i := v.appenders[i].(level := level)]) else v
  }

  function AllCalled(v: LoggerView, calls: seq<LoggerCall>): LoggerView {
    if calls == [] then v else Called(AllCalled(v, calls[..|calls| - 1]), calls[|calls| - 1])
  }

  /** After any sequence of calls every attached appender has a formatter, and one without
      its own shares the logger's current formatter. */
  method MakeCalls(l: Logger, calls: seq<LoggerCall>)
    requires l.Tidy()
    modifies l.Objects()
    ensures l.Tidy() && l.m_root == old(l.m_root)
    ensures fresh(l.Objects() - old(l.Objects()))
    ensures forall a | a in old(l.m_appenders) :: a.sink == old(a.sink)
    ensures forall a | a in l.m_appenders && a !in old(l.m_appenders) :: fresh(a) && a.sink == []
    ensures l.View() == AllCalled(old(l.View()), calls)
    decreases |calls|
  {
    hide Called, Logger.Tidy, Logger.View;
    if calls != [] {
      MakeCalls(l, calls[..|calls| - 1]);
      MakeCall(l, calls[|calls| - 1]);
    }
  }

  method MakeCall(l: Logger, call: LoggerCall)
    requires l.Tidy()
    modifies l.Objects()
    ensures l.Tidy() && l.m_root == old(l.m_root)
    ensures fresh(l.Objects() - old(l.Objects()))
    ensures forall a | a in old(l.m_appenders) :: a.sink == old(a.sink)
    ensures forall a | a in l.m_appenders && a !in old(l.m_appenders) :: fresh(a) && a.sink == []
    ensures l.View() == Called(old(l.View()), call)
  {
    hide ViewsOf, Parse, HasError;
    match call
    case AddFresh(kind, file, own) => AttachFresh(l, kind, file, own);
    case Del(i) => Detach(l, i);
    case Clear => l.ClearAppenders();
    case SetFormatter(pattern) => Refit(l, pattern);
    case SetPattern(pattern) => RefitPattern(l, pattern);
    case SetAppenderFormatter(i, pattern) => RefitAppender(l, i, pattern);
    case SetLevel(level) => l.m_level := level;
    case SetAppenderLevel(i, level) => RelevelAppender(l, i, level);
  }

  method Refit(l: Logger, pattern: string)
    requires l.Tidy()
    modifies l`m_formatter, l.m_appenders
    ensures l.Tidy() && l.View() == Called(old(l.View()), SetFormatter(pattern))
    ensures l.m_appenders == old(l.m_appenders) && forall a | a in l.m_appenders :: a.sink == old(a.sink)
  {
    hide ViewsOf, Parse, HasError, ItemsOf;
    var f := new LogFormatter(pattern);
    l.SetFormatter(f);
    ViewsStay(l.m_appenders);
  }

  method RefitPattern(l: Logger, pattern: string)
    requires l.Tidy()
    modifies l`m_formatter, l.m_appenders
    ensures l.Tidy() && l.View() == Called(old(l.View()), SetPattern(pattern))
    ensures l.m_appenders == old(l.m_appenders) && forall a | a in l.m_appenders :: a.sink == old(a.sink)
  {
    hide ViewsOf, Parse, HasError;
    l.SetPattern(pattern);
    ViewsStay(l.m_appenders);
  }

  method RefitAppender(l: Logger, i: nat, pattern: string)
    requires l.Tidy()
    modifies l.m_appenders
    ensures l.Tidy() && l.View() == Called(old(l.View()), SetAppenderFormatter(i, pattern))
    ensures forall a | a in l.m_appenders :: a.sink == old(a.sink)
  {
    hide ViewsOf, Parse, HasError, ItemsOf;
    if i < |l.m_appenders| {
      ghost var apps, before := l.m_appenders, ViewsOf(l.m_appenders);
      var f := new LogFormatter(pattern);
      l.m_appenders[i].SetFormatter(f);
      assert forall j | 0 <= j < |apps| && j != i :: apps[j] != apps[i];
      assert ViewsOf(apps) == before[i := apps[i].View()];
    }
  }

  method RelevelAppender(l: Logger, i: nat, level: Level)
    requires l.Tidy()
    modifies l.m_appenders
    ensures l.Tidy() && l.View() == Called(old(l.View()), SetAppenderLevel(i, level))
    ensures forall a | a in l.m_appenders :: a.sink == old(a.sink)
  {
    hide ViewsOf, Parse, HasError;
    if i < |l.m_appenders| {
      ghost var apps, before := l.m_appenders, ViewsOf(l.m_appenders);
      l.m_appenders[i].m_level := level;
      assert forall j | 0 <= j < |apps| && j != i :: apps[j] != apps[i];
      assert ViewsOf(apps) == before[i := apps[i].View()];
    }
  }

  method AttachFresh(l: Logger, kind: int, file: string, own: Option<string>)
    requires l.Tidy()
    modifies l`m_appenders
    ensures l.Tidy() && fresh(l.Objects() - old(l.Objects()))
    ensures forall a | a in l.m_appenders && a !in old(l.m_appenders) :: fresh(a) && a.sink == []
    ensures l.View() == Called(old(l.View()), AddFresh(kind, file, own))
  {
    hide ViewsOf, ItemsOf, LogFormatter.Sound;
    var a := NewAppender(kind, file, own);
    ghost var before := l.m_appenders;
    l.AddAppender(a);
    ViewsStay(before);
    ViewsOfEnd(before, a);
  }

  method NewAppender(kind: int, file: string, own: Option<string>) returns (a: LogAppender)
    ensures fresh(a) && a.View() == AppenderView(kind, file, DEBUG, own) && a.sink == []
    ensures (a.m_formatter != null <==> a.m_hasFormatter) && (a.m_formatter != null ==> a.m_formatter.Sound())
  {
    a := new LogAppender(kind, file);
    if own.Some? {
      var f := new LogFormatter(own.value);
      a.SetFormatter(f);
    }
  }

  lemma ViewsWithout(apps: seq<LogAppender>, i: nat)
    requires i < |apps|
    ensures ViewsOf(apps[..i] + apps[i + 1..]) == ViewsOf(apps)[..i] + ViewsOf(apps)[i + 1..]
  {
    hide ViewsOf;
  }

  lemma DistinctWithout<T>(s: seq<T>, i: nat)
    requires i < |s| && Distinct(s)
    ensures Distinct(s[..i] + s[i + 1..]) && forall x | x in s[..i] + s[i + 1..] :: x in s
    ensures RemoveFirst(s, s[i]) == s[..i] + s[i + 1..]
  {
    RemoveFirstAt(s, s[i], i);
  }

  method Detach(l: Logger, i: nat)
    requires l.Tidy()
    modifies l`m_appenders
    ensures l.Tidy() && forall a | a in l.m_appenders :: a in old(l.m_appenders)
    ensures l.View() == Called(old(l.View()), Del(i))
  {
    hide ViewsOf, Parse, HasError, Distinct, RemoveFirst, LogFormatter.Sound;
    if i < |l.m_appenders| {
      ghost var before := l.m_appenders;
      DistinctWithout(before, i);
      l.DelAppender(l.m_appenders[i]);
      ViewsWithout(before, i);
    }
  }

  // ------------------------------------------------------------------ manager

  const ROOT: string := "root"

  lemma OneView(a: LogAppender)
    ensures ViewsOf([a]) == [a.View()]
  {
    ViewsOfEnd([], a);
    assert [] + [a] == [a];
  }

  method NewRoot() returns (root: Logger, out: LogAppender)
    ensures fresh(root) && fresh(out) && root.m_name == ROOT && root.m_root == null
    ensures root.m_appenders == [out] && root.Tidy()
    ensures root.View() == FRESH_VIEW.(appenders := [AppenderView(2, "", DEBUG, None)])
  {
    hide DEFAULT_PATTERN, ROOT, ViewsOf;
    root := new Logger(ROOT);
    out := new LogAppender(2, "");
    root.AddAppender(out);
    OneView(out);
  }

  type Table = map<string, LoggerView>

  function ViewOf(t: Table, name: string): LoggerView {
    if name in t then t[name] else FRESH_VIEW
  }

  /** A call on the logger obtained by name, or a log statement on it. */
  datatype Request = On(name: string, call: LoggerCall) | Log(name: string, level: Level, line: Line)

  function Handled(t: Table, r: Request): Table {
    t[r.name := if r.On? then Called(ViewOf(t, r.name), r.call) else ViewOf(t, r.name)]
  }

  function Served(t: Table, rs: seq<Request>): Table {
    if rs == [] then t else Handled(Served(t, rs[..|rs| - 1]), rs[|rs| - 1])
  }

  /** The pattern an appender writes with. */
  function PatternFor(a: AppenderView, pattern: Option<string>): string {
    if a.own.Some? then a.own.value else if pattern.Some? then pattern.value else ""
  }

  /** What a list of appenders writes of an event. */
  function Sent(apps: seq<AppenderView>, pattern: Option<string>, level: Level, name: string, line: Line): seq<string> {
    if apps == [] then []
    else
      var init := Sent(apps[..|apps| - 1], pattern, level, name, line);
      var last := apps[|apps| - 1];
      if Accepts(last.level, level)
      then init + [Format(ItemsOf(PatternFor(last, pattern)), level, name, line)] else init
  }

  /** What a log statement on a logger writes: the logger's appenders do, or the root's when it
      has none, under the root's level; the name is the logger's own. */
  function Emitted(t: Table, name: string, level: Level, line: Line): seq<string> {
    var v := ViewOf(t, name);
    if !Accepts(v.level, level) then []
    else if v.appenders != [] then Sent(v.appenders, v.pattern, level, name, line)
    else if name != ROOT && Accepts(ViewOf(t, ROOT).level, level)
    then Sent(ViewOf(t, ROOT).appenders, ViewOf(t, ROOT).pattern, level, name, line)
    else []
  }

  /** Obtaining a logger changes nothing a log statement sees. */
  lemma EmittedAfterGet(t: Table, name: string, level: Level, line: Line)
    ensures Emitted(t[name := ViewOf(t, name)], name, level, line) == Emitted(t, name, level, line)
  {
  }

  /** All texts of a run, in order. */
  function AllEmitted(t: Table, rs: seq<Request>): seq<string> {
    if rs == [] then []
    else
      var r := rs[|rs| - 1];
      AllEmitted(t, rs[..|rs| - 1]) +
      if r.Log? then Emitted(Served(t, rs[..|rs| - 1]), r.name, r.level, r.line) else []
  }

  function Texts(out: seq<Delivery>): (r: seq<string>)
    ensures |r| == |out|
  {
    seq(|out|, i requires 0 <= i < |out| => out[i].text)
  }

  /** What each appender has written. */
  type Writings = map<LogAppender, seq<string>>

  /** Every appender's writings grow by the texts delivered to it; new ones start empty. */
  ghost predicate Grown(w0: Writings, out: seq<Delivery>, w1: Writings) {
    && w0.Keys <= w1.Keys
    && (forall d | d in out :: d.appender in w1)
    && (forall a | a in w1 :: GrownAt(w0, out, w1, a))
  }

  lemma TextsOfNone(a: LogAppender)
    ensures TextsOf([], a) == []
  {
  }

  lemma {:induction false} TextsOfBoth(x: seq<Delivery>, y: seq<Delivery>, a: LogAppender)
    ensures TextsOf(x + y, a) == TextsOf(x, a) + TextsOf(y, a)
    decreases |y|
  {
    hide TextsOf;
    if y == [] {
      TextsOfNone(a);
      assert x + y == x;
    } else {
      var init, last := y[..|y| - 1], y[|y| - 1];
      TextsOfBoth(x, init, a);
      TextsOfEnd(x + init, last, a);
      TextsOfEnd(init, last, a);
      assert x + y == x + init + [last] && y == init + [last];
    }
  }

  lemma {:induction false} NoTexts(out: seq<Delivery>, a: LogAppender)
    requires forall d | d in out :: d.appender != a
    ensures TextsOf(out, a) == []
    decreases |out|
  {
    if out != [] {
      NoTexts(out[..|out| - 1], a);
    }
  }

  ghost predicate GrownAt(w0: Writings, out: seq<Delivery>, w1: Writings, a: LogAppender) {
    a in w1 && w1[a] == (if a in w0 then w0[a] else []) + TextsOf(out, a)
  }

  lemma GrownAtTwice(w0: Writings, x: seq<Delivery>, w1: Writings, y: seq<Delivery>, w2: Writings, a: LogAppender)
    requires w0.Keys <= w1.Keys && forall d | d in x :: d.appender in w1
    requires GrownAt(w1, y, w2, a) && (a in w1 ==> GrownAt(w0, x, w1, a))
    ensures GrownAt(w0, x + y, w2, a)
  {
    hide TextsOf;
    TextsOfBoth(x, y, a);
    if a in w1 {
      assert w1[a] + TextsOf(y, a) == (if a in w0 then w0[a] else []) + (TextsOf(x, a) + TextsOf(y, a));
    } else {
      assert a !in w0.Keys;
      NoTexts(x, a);
      assert [] + TextsOf(y, a) == [] + ([] + TextsOf(y, a));
    }
  }

  lemma GrownTwice(w0: Writings, x: seq<Delivery>, w1: Writings, y: seq<Delivery>, w2: Writings)
    requires Grown(w0, x, w1) && Grown(w1, y, w2)
    ensures Grown(w0, x + y, w2)
  {
    hide GrownAt, TextsOf;
    forall a | a in w2 ensures GrownAt(w0, x + y, w2, a) {
      GrownAtTwice(w0, x, w1, y, w2, a);
    }
    assert forall d | d in x + y :: d in x || d in y;
  }

  lemma FieldsOfView(l: Logger)
    ensures l.View().level == l.m_level && l.View().appenders == ViewsOf(l.m_appenders)
    ensures ViewsOf(l.m_appenders) == [] <==> l.m_appenders == []
  {
  }

  lemma GrownStill(w0: Writings, out: seq<Delivery>, w1: Writings, w2: Writings)
    requires Grown(w0, out, w1) && Grown(w1, [], w2)
    ensures Grown(w0, out, w2)
  {
    hide Grown;
    GrownTwice(w0, out, w1, [], w2);
    assert out + [] == out;
  }

  /** The appenders of a list write what their views say. */
  lemma {:induction false} DeliveriesAreSent(l: Logger, apps: seq<LogAppender>, level: Level, e: LogEvent)
    requires l.Tidy() && forall a | a in apps :: a in l.m_appenders
    ensures Texts(Deliveries(apps, level, e))
         == Sent(ViewsOf(apps), l.View().pattern, level, e.logger.m_name, e.line)
    ensures forall d | d in Deliveries(apps, level, e) :: d.appender in apps
    decreases |apps|
  {
    if apps != [] {
      var init, last := apps[..|apps| - 1], apps[|apps| - 1];
      DeliveriesAreSent(l, init, level, e);
      assert PatternFor(last.View(), l.View().pattern) == last.m_formatter.m_pattern;
      assert last.m_formatter.Sound();
      assert ViewsOf(apps)[..|init|] == ViewsOf(init);
    }
  }

  class LoggerManager {
    const m_root: Logger
    var m_loggers: map<string, Logger>
    ghost var owner: map<object, string>

    /** Loggers are filed under their names, all but the root have it as their root, each
        logger or appender belongs to one name, and formatters are inherited. */
    ghost predicate Valid()
      reads this, owner.Keys
    {
      && this !in owner
      && ROOT in m_loggers && m_loggers[ROOT] == m_root
      && forall n | n in m_loggers ::
           m_loggers[n] in owner && Owns(n, m_loggers[n]) && Filed(n, m_loggers[n])
    }

    ghost predicate Owns(name: string, l: Logger)
      reads this, l
    {
      l in owner && owner[l] == name &&
      forall a | a in l.m_appenders :: a in owner && owner[a] == name
    }

    ghost predicate Filed(name: string, l: Logger)
      reads l, l.m_appenders
    {
      l.m_name == name && l.m_root == (if name == ROOT then null else m_root) && l.Tidy()
    }

    ghost function Written(): Writings
      reads this, owner.Keys
    {
      map a: LogAppender | a in owner :: a.sink
    }

    twostate lemma GrownFrom(new out: seq<Delivery>)
      requires old(owner.Keys) <= owner.Keys && forall d | d in out :: d.appender in owner
      requires forall a: LogAppender | a in old(owner) :: a.sink == old(a.sink) + TextsOf(out, a)
      requires forall a: LogAppender | a in owner && a !in old(owner) :: a.sink == TextsOf(out, a)
      ensures Grown(old(Written()), out, Written())
    {
      hide TextsOf;
    }

    twostate lemma SameWritten()
      requires forall a: LogAppender :: a in owner <==> a in old(owner)
      requires forall a: LogAppender | a in owner :: a.sink == old(a.sink)
      ensures Written() == old(Written())
    {
    }

    /** Level, pattern and appenders of every logger. */
    ghost function View(): Table
      requires Valid()
      reads this, owner.Keys
    {
      map n | n in m_loggers :: m_loggers[n].View()
    }

    /** The root logger writes to the console. */
    constructor ()
      ensures Valid() && fresh(this) && fresh(owner.Keys)
      ensures m_loggers == map[ROOT := m_root]
      ensures m_root.View() == FRESH_VIEW.(appenders := [AppenderView(2, "", DEBUG, None)])
    {
      hide ViewsOf, DEFAULT_PATTERN;
      var root, out := NewRoot();
      m_root := root;
      m_loggers := map[ROOT := root];
      owner := map[root := ROOT, out := ROOT];
      new;
    }

    method NewLogger(name: string) returns (l: Logger)
      ensures fresh(l) && l.m_name == name && l.m_root == m_root && l.m_appenders == []
      ensures l.Tidy() && l.View() == FRESH_VIEW
    {
      hide DEFAULT_PATTERN, ViewsOf;
      l := new Logger(name);
      l.m_root := m_root;
    }

    /** Valid survives filing a new logger. */
    twostate lemma Filing(l: Logger)
      requires old(Valid()) && l.m_name !in old(m_loggers) && l.m_appenders == [] && Filed(l.m_name, l)
      requires m_loggers.Keys == old(m_loggers.Keys) + {l.m_name} && m_loggers[l.m_name] == l
      requires forall n | n in old(m_loggers) :: m_loggers[n] == old(m_loggers[n])
      requires this !in owner && l in owner && owner[l] == l.m_name
      requires forall o | o in old(owner) :: o in owner && owner[o] == old(owner[o]) && unchanged(o)
      ensures Valid() && View() == old(View())[l.m_name := l.View()]
    {
      hide Logger.Tidy, Logger.View, ROOT, ViewsOf, Distinct;
      forall n | n in old(m_loggers)
        ensures m_loggers[n] in owner && Owns(n, m_loggers[n]) && Filed(n, m_loggers[n])
        ensures m_loggers[n].View() == old(m_loggers[n].View())
      {
        var k := m_loggers[n];
        assert old(Owns(n, k) && Filed(n, k));
        assert forall a | a in k.m_appenders :: unchanged(a);
        k.Stays();
      }
    }

    method Register(l: Logger)
      requires Valid() && l.m_name !in m_loggers && l !in owner && l.m_appenders == []
      requires Filed(l.m_name, l)
      modifies this`m_loggers, this`owner
      ensures Valid() && m_loggers == old(m_loggers)[l.m_name := l] && owner == old(owner)[l := l.m_name]
      ensures View() == old(View())[l.m_name := l.View()]
    {
      m_loggers := m_loggers[l.m_name := l];
      owner := owner[l := l.m_name];
      Filing(l);
    }

    lemma ViewAt(name: string)
      requires Valid()
      ensures ViewOf(View(), name) == if name in m_loggers then m_loggers[name].View() else FRESH_VIEW
      ensures name in m_loggers ==> View()[name := m_loggers[name].View()] == View()
    {
      hide FRESH_VIEW, Logger.View;
    }

    /** An existing logger, or a new one under the root. */
    method GetLogger(name: string) returns (l: Logger)
      requires Valid()
      modifies this
      ensures Valid() && fresh(owner.Keys - old(owner.Keys)) && l.m_name == name && Files(l)
      ensures name in old(m_loggers) ==> m_loggers == old(m_loggers)
      ensures name !in old(m_loggers) ==> m_loggers == old(m_loggers)[name := l] && fresh(l)
      ensures l.View() == ViewOf(old(View()), name) && View() == old(View())[name := l.View()]
      ensures Written() == old(Written())
    {
      hide FRESH_VIEW, View, ViewOf, Written, Logger.View, Logger.Tidy, Owns;
      ViewAt(name);
      if name in m_loggers {
        NameIsKey(name);
        return m_loggers[name];
      }
      l := NewLogger(name);
      Register(l);
      SameWritten();
    }

    lemma NameIsKey(name: string)
      requires Valid() && name in m_loggers
      ensures m_loggers[name].m_name == name
    {
      assert Filed(name, m_loggers[name]);
    }

    /** Puts the appenders a logger has gained under its name. */
    ghost method Adopt(l: Logger)
      requires Files(l) && l in owner && owner[l] == l.m_name
      requires forall a | a in l.m_appenders && a in owner :: owner[a] == l.m_name
      modifies this`owner
      ensures owner.Keys == old(owner.Keys) + l.Objects() && Owns(l.m_name, l)
      ensures forall o | o in old(owner) :: owner[o] == old(owner[o])
    {
      owner := map o | o in owner.Keys + l.Objects() :: if o in owner then owner[o] else l.m_name;
    }

    /** Valid survives a change confined to one logger and its appenders. */
    twostate lemma Confined(l: Logger)
      requires old(Valid()) && m_loggers == old(m_loggers)
      requires Files(l)
      requires this !in owner && Owns(l.m_name, l) && Filed(l.m_name, l)
      requires forall o | o in old(owner) :: o in owner && owner[o] == old(owner[o])
      requires forall o | o in old(owner) && old(owner[o]) != l.m_name :: unchanged(o)
      ensures Valid()
      ensures View() == old(View())[l.m_name := l.View()]
    {
      hide Logger.Tidy, Logger.View, ROOT;
      forall n | n in m_loggers && n != l.m_name
        ensures m_loggers[n] in owner && Owns(n, m_loggers[n]) && Filed(n, m_loggers[n])
        ensures m_loggers[n].View() == old(m_loggers[n].View())
      {
        var k := m_loggers[n];
        assert old(Owns(n, k) && Filed(n, k));
        assert forall a | a in k.m_appenders :: unchanged(a);
        k.Stays();
      }
    }

    predicate Files(l: Logger)
      reads this
    {
      l.m_name in m_loggers && m_loggers[l.m_name] == l
    }

    lemma OwnsObjects(l: Logger)
      requires Valid() && Files(l)
      ensures Filed(l.m_name, l) && Owns(l.m_name, l)
      ensures forall o | o in l.Objects() :: o in owner && owner[o] == l.m_name
    {
    }

    method CallOn(l: Logger, call: LoggerCall)
      requires Valid() && Files(l)
      modifies this`owner, l.Objects()
      ensures Valid() && old(owner.Keys) <= owner.Keys && fresh(owner.Keys - old(owner.Keys))
      ensures View() == old(View())[l.m_name := Called(old(l.View()), call)]
      ensures forall a: LogAppender | a in old(owner) :: a.sink == old(a.sink)
      ensures forall a: LogAppender | a in owner && a !in old(owner) :: a.sink == []
    {
      hide Called, Logger.Tidy, Logger.View, ROOT;
      OwnsObjects(l);
      MakeCall(l, call);
      ghost var v := l.View();
      Adopt(l);
      assert l.View() == v;
      assert Filed(l.m_name, l);
      Confined(l);
    }

    /** Any call on a managed logger; the others keep their level, pattern and appenders. */
    method Call(l: Logger, call: LoggerCall)
      requires Valid() && Files(l)
      modifies this`owner, l.Objects()
      ensures Valid() && fresh(owner.Keys - old(owner.Keys))
      ensures View() == old(View())[l.m_name := Called(old(l.View()), call)]
      ensures Grown(old(Written()), [], Written())
    {
      hide View, Valid, Called, Grown, Written;
      CallOn(l, call);
      GrownFrom([]);
    }

    /** Any managed logger can take any event: at most one step leads to the root. */
    lemma CanDeliver(name: string, level: Level)
      requires Valid() && name in m_loggers
      ensures m_loggers[name].Deliverable(level)
      ensures m_loggers[name].m_root == null <==> name == ROOT
    {
      assert Filed(name, m_loggers[name]) && Filed(ROOT, m_root);
    }

    /** Where the deliveries of a log statement go, and what they say. */
    lemma EmittedIsServed(l: Logger, level: Level, line: Line)
      requires Valid() && Files(l) && l.Deliverable(level)
      ensures Texts(Deliveries(l.Serving(level), level, LogEvent(l, line))) == Emitted(View(), l.m_name, level, line)
      ensures forall d | d in Deliveries(l.Serving(level), level, LogEvent(l, line)) :: d.appender in owner
    {
      hide View, Sent, Logger.View, Logger.Tidy, FRESH_VIEW, ViewsOf;
      var e := LogEvent(l, line);
      ViewAt(l.m_name);
      ViewAt(ROOT);
      OwnsObjects(l);
      OwnsObjects(m_root);
      FieldsOfView(l);
      FieldsOfView(m_root);
      DeliveriesAreSent(l, l.m_appenders, level, e);
      DeliveriesAreSent(m_root, m_root.m_appenders, level, e);
    }

    /** Each text a statement leads to is, piece by piece, what the pattern of the appender's
        formatter says, for the logger the statement is on; without appenders of its own it
        is the root's appenders that write. */
    lemma DeliveredSays(l: Logger, level: Level, line: Line, i: nat) returns (texts: seq<string>)
      requires Valid() && Files(l) && l.Deliverable(level)
      requires i < |Deliveries(l.Serving(level), level, LogEvent(l, line))|
      ensures var d := Deliveries(l.Serving(level), level, LogEvent(l, line))[i];
              && d.appender in (if l.m_appenders == [] then m_root.m_appenders else l.m_appenders)
              && d.appender.m_formatter != null
              && var ps := Parse(d.appender.m_formatter.m_pattern);
                 |texts| == |ps| && d.text == Concat(texts)
                 && forall k | 0 <= k < |ps| :: Says(ps[k], texts[k], level, l.m_name, line)
    {
      hide Says, Format, Parse, Concat, ItemsOf, View, Logger.View;
      var ps := OneDeliveryPerPosition(l.Serving(level), level, LogEvent(l, line));
      var d := Deliveries(l.Serving(level), level, LogEvent(l, line))[i];
      OwnsObjects(l);
      OwnsObjects(m_root);
      assert d.appender.m_formatter.Sound();
      texts := PatternSays(d.appender.m_formatter.m_pattern, level, l.m_name, line);
    }

    /** %c in a pattern prints the name of the logger the statement is on, also in a text that an
        appender of the root logger writes for a logger without appenders. */
    lemma OriginatorIsNamed(l: Logger, level: Level, line: Line, i: nat, k: nat) returns (texts: seq<string>)
      requires Valid() && Files(l) && l.Deliverable(level)
      requires i < |Deliveries(l.Serving(level), level, LogEvent(l, line))|
      requires var f := Deliveries(l.Serving(level), level, LogEvent(l, line))[i].appender.m_formatter;
               f != null && k < |Parse(f.m_pattern)| && Parse(f.m_pattern)[k].Spec? && Parse(f.m_pattern)[k].kind == "c"
      ensures var d := Deliveries(l.Serving(level), level, LogEvent(l, line))[i];
              && d.appender in (if l.m_appenders == [] then m_root.m_appenders else l.m_appenders)
              && |texts| == |Parse(d.appender.m_formatter.m_pattern)| && d.text == Concat(texts)
              && texts[k] == l.m_name
    {
      hide Parse, Concat, Valid, Deliveries;
      texts := DeliveredSays(l, level, line, i);
    }

    /** Which appenders take a statement's event.  The thresholds passed on the way do not come
        after its level in the list of levels, and neither do the appender's own. */
    lemma HeardBy(l: Logger, level: Level, line: Line)
      requires Valid() && Files(l) && l.Deliverable(level)
      ensures var out := Deliveries(l.Serving(level), level, LogEvent(l, line));
              && (l.m_appenders != [] ==> Took(out, l.m_appenders, LevelsOf(l.m_appenders), [l.m_level], level))
              && (l.m_appenders == [] && l != m_root ==>
                    Took(out, m_root.m_appenders, LevelsOf(m_root.m_appenders), [l.m_level, m_root.m_level], level))
              && (l.m_appenders == [] && l == m_root ==> out == [])
    {
      hide NotAfter, Accepts, View, Logger.View, Logger.Tidy, Deliveries, Took;
      AcceptsByList();
      OwnsObjects(l);
      OwnsObjects(m_root);
      var apps := if l.m_appenders == [] then m_root.m_appenders else l.m_appenders;
      var e := LogEvent(l, line);
      NoDeliveries(level, e);
      var one, two := [l.m_level], [l.m_level, m_root.m_level];
      if !Accepts(l.m_level, level) {
        NoneTook(apps, LevelsOf(apps), one, level, 0);
        NoneTook(apps, LevelsOf(apps), two, level, 0);
      } else if l.m_appenders == [] && l != m_root && !Accepts(m_root.m_level, level) {
        NoneTook(apps, LevelsOf(apps), two, level, 1);
      } else if l.m_appenders == [] && l != m_root {
        var ps := OneDeliveryPerPosition(apps, level, e);
        AllTook(Deliveries(apps, level, e), apps, two, level, ps);
      } else if l.m_appenders != [] {
        var ps := OneDeliveryPerPosition(apps, level, e);
        AllTook(Deliveries(apps, level, e), apps, one, level, ps);
      }
    }

    /** Only what appenders have written has changed. */
    twostate lemma OnlySinks()
      requires old(Valid()) && unchanged(this)
      requires forall n | n in m_loggers :: unchanged(m_loggers[n])
      requires forall a: LogAppender | a in owner ::
                 unchanged(a`m_level) && unchanged(a`m_hasFormatter) && unchanged(a`m_formatter)
      ensures Valid() && View() == old(View())
    {
      hide Logger.Tidy, Logger.View, ROOT;
      forall n | n in m_loggers
        ensures m_loggers[n] in owner && Owns(n, m_loggers[n]) && Filed(n, m_loggers[n])
        ensures m_loggers[n].View() == old(m_loggers[n].View())
      {
        var k := m_loggers[n];
        assert old(Owns(n, k) && Filed(n, k));
        assert forall a | a in k.m_appenders :: a in owner;
        k.StaysBarSinks();
      }
    }

    method LogWrites(l: Logger, level: Level, line: Line) returns (out: seq<Delivery>)
      requires Valid() && Files(l)
      modifies (set a | a in l.Serving(level))`sink
      ensures out == old(Deliveries(l.Serving(level), level, LogEvent(l, line)))
      ensures forall d | d in out :: d.appender in owner
      ensures forall a: LogAppender | a in owner :: a.sink == old(a.sink) + TextsOf(out, a)
      ensures Texts(out) == Emitted(old(View()), l.m_name, level, line)
      ensures l.m_appenders != [] ==> Took(out, l.m_appenders, old(LevelsOf(l.m_appenders)), [l.m_level], level)
      ensures l.m_appenders == [] && l != m_root ==>
                Took(out, m_root.m_appenders, old(LevelsOf(m_root.m_appenders)), [l.m_level, m_root.m_level], level)
      ensures l.m_appenders == [] && l == m_root ==> out == []
    {
      hide Emitted, View, Texts, TextsOf, Deliveries, Took;
      CanDeliver(l.m_name, level);
      EmittedIsServed(l, level, line);
      HeardBy(l, level, line);
      ghost var serving := l.Serving(level);
      GoToServing(serving, level, LogEvent(l, line));
      out := l.Log(level, LogEvent(l, line));
      forall a: LogAppender | a in owner && a !in serving ensures TextsOf(out, a) == [] {
        NoTexts(out, a);
      }
    }

    method LogKeeps(l: Logger, level: Level, line: Line) returns (out: seq<Delivery>)
      requires Valid() && Files(l)
      modifies (set a | a in l.Serving(level))`sink
      ensures Valid() && View() == old(View())
      ensures forall d | d in out :: d.appender in owner
      ensures forall a: LogAppender | a in owner :: a.sink == old(a.sink) + TextsOf(out, a)
      ensures Texts(out) == Emitted(old(View()), l.m_name, level, line)
      ensures l.m_appenders != [] ==> Took(out, l.m_appenders, old(LevelsOf(l.m_appenders)), [l.m_level], level)
      ensures l.m_appenders == [] && l != m_root ==>
                Took(out, m_root.m_appenders, old(LevelsOf(m_root.m_appenders)), [l.m_level, m_root.m_level], level)
      ensures l.m_appenders == [] && l == m_root ==> out == []
    {
      hide Emitted, View, Texts, TextsOf, Deliveries, ROOT, Logger.View, Logger.Tidy, Took;
      out := LogWrites(l, level, line);
      OnlySinks();
    }

    /** A log statement on a managed logger: the appenders that take the event write it. */
    method LogOn(l: Logger, level: Level, line: Line) returns (out: seq<Delivery>)
      requires Valid() && Files(l)
      modifies (set a | a in l.Serving(level))`sink
      ensures Valid() && View() == old(View())
      ensures Texts(out) == Emitted(old(View()), l.m_name, level, line)
      ensures Grown(old(Written()), out, Written())
      ensures l.m_appenders != [] ==> Took(out, l.m_appenders, old(LevelsOf(l.m_appenders)), [l.m_level], level)
      ensures l.m_appenders == [] && l != m_root ==>
                Took(out, m_root.m_appenders, old(LevelsOf(m_root.m_appenders)), [l.m_level, m_root.m_level], level)
      ensures l.m_appenders == [] && l == m_root ==> out == []
    {
      hide Emitted, View, Valid, Texts, TextsOf, Grown, Written, Took;
      out := LogKeeps(l, level, line);
      GrownFrom(out);
    }

    method HandleCall(name: string, call: LoggerCall)
      requires Valid()
      modifies this, owner.Keys
      ensures Valid() && fresh(owner.Keys - old(owner.Keys))
      ensures View() == old(View())[name := Called(ViewOf(old(View()), name), call)]
      ensures Grown(old(Written()), [], Written())
    {
      hide Valid, View, ViewOf, Called, Written, Grown, Logger.View;
      ghost var t, keys := View(), owner.Keys;
      var l := GetLogger(name);
      OwnsObjects(l);
      ghost var keys1 := owner.Keys;
      Call(l, call);
      UpdateTwice(t, name, ViewOf(t, name), Called(ViewOf(t, name), call));
      assert owner.Keys - keys <= (owner.Keys - keys1) + (keys1 - keys);
    }

    method HandleLog(name: string, level: Level, line: Line) returns (out: seq<Delivery>)
      requires Valid()
      modifies this, owner.Keys
      ensures Valid() && fresh(owner.Keys - old(owner.Keys))
      ensures View() == old(View())[name := ViewOf(old(View()), name)]
      ensures Texts(out) == Emitted(old(View()), name, level, line)
      ensures Grown(old(Written()), out, Written())
    {
      hide View, ViewOf, Written, Grown, Logger.View, Emitted, Texts, Logger.Tidy;
      EmittedAfterGet(View(), name, level, line);
      var l := GetLogger(name);
      ServingIsOwned(l, level);
      out := LogOn(l, level, line);
    }

    lemma ServingIsOwned(l: Logger, level: Level)
      requires Valid() && Files(l)
      ensures forall a | a in l.Serving(level) :: a in owner
    {
      OwnsObjects(l);
      OwnsObjects(m_root);
    }

    /** One request. */
    method Handle(r: Request) returns (out: seq<Delivery>)
      requires Valid()
      modifies this, owner.Keys
      ensures Valid() && fresh(owner.Keys - old(owner.Keys))
      ensures View() == Handled(old(View()), r)
      ensures Texts(out) == if r.Log? then Emitted(old(View()), r.name, r.level, r.line) else []
      ensures Grown(old(Written()), out, Written())
    {
      hide Valid, View, ViewOf, Called, Written, Grown, Emitted;
      out := [];
      match r
      case On(name, call) => HandleCall(name, call);
      case Log(name, level, line) => out := HandleLog(name, level, line);
    }

    /** Any sequence of calls and log statements on loggers obtained by name.  Each call changes
        its own logger only; the texts written, in order, are those of the log statements on
        the loggers as they are then; and every appender, attached or not, has written
        exactly the texts delivered to it. */
    method Serve(rs: seq<Request>) returns (out: seq<Delivery>)
      requires Valid()
      modifies this, owner.Keys
      ensures Valid() && fresh(owner.Keys - old(owner.Keys))
      ensures View() == Served(old(View()), rs)
      ensures Texts(out) == AllEmitted(old(View()), rs)
      ensures Grown(old(Written()), out, Written())
      decreases |rs|
    {
      hide Valid, View, Written, Handled, Emitted, Grown;
      out := [];
      NothingWritten(Written());
      if rs != [] {
        ghost var before := Written();
        var first := Serve(rs[..|rs| - 1]);
        ghost var between := Written();
        var last := Handle(rs[|rs| - 1]);
        out := first + last;
        GrownTwice(before, first, between, last, Written());
        assert Texts(out) == Texts(first) + Texts(last);
      }
    }
  }

  function LevelsOf(apps: seq<LogAppender>): (r: seq<Level>)
    reads apps
    ensures |r| == |apps| && forall i | 0 <= i < |apps| :: r[i] == apps[i].m_level
  {
    seq(|apps|, i requires 0 <= i < |apps| reads apps => apps[i].m_level)
  }

  /** Position p of a list takes an event: no threshold comes after its level. */
  ghost predicate Takes(levels: seq<Level>, thresholds: seq<Level>, level: Level, p: nat)
    requires p < |levels|
  {
    NotAfter(levels[p], level) && forall i | 0 <= i < |thresholds| :: NotAfter(thresholds[i], level)
  }

  /** The deliveries are one for each position that takes the event, in order. */
  ghost predicate Took(out: seq<Delivery>, apps: seq<LogAppender>, levels: seq<Level>, thresholds: seq<Level>, level: Level)
    requires |levels| == |apps|
  {
    exists ps: seq<nat> ::
      && |ps| == |out| && (forall i, j | 0 <= i < j < |ps| :: ps[i] < ps[j])
      && (forall i | 0 <= i < |ps| :: ps[i] < |apps| && out[i].appender == apps[ps[i]])
      && (forall p | 0 <= p < |apps| :: p in ps <==> Takes(levels, thresholds, level, p))
  }

  /** An event of exactly the logger's and the appender's level is written; one of the level
      before is not. */
  lemma AtItsOwnLevel(out: seq<Delivery>, apps: seq<LogAppender>, levels: seq<Level>, level: Level, p: nat, x: nat)
    requires |levels| == |apps| && p < |apps| && x < |LEVELS| && levels[p] == LEVELS[x]
    requires Took(out, apps, levels, [LEVELS[x]], level)
    ensures level == LEVELS[x] ==> exists i | 0 <= i < |out| :: out[i].appender == apps[p]
    ensures x > 0 && level == LEVELS[x - 1] ==> out == []
  {
    NumByList(LEVELS[x], level);
    NumIsPosition(LEVELS[x]);
    NumIsPosition(level);
    if level == LEVELS[x] {
      var ps: seq<nat> :|
        && |ps| == |out| && (forall i, j | 0 <= i < j < |ps| :: ps[i] < ps[j])
        && (forall i | 0 <= i < |ps| :: ps[i] < |apps| && out[i].appender == apps[ps[i]])
        && (forall p | 0 <= p < |apps| :: p in ps <==> Takes(levels, [LEVELS[x]], level, p));
      assert Takes(levels, [LEVELS[x]], level, p);
    } else if x > 0 && level == LEVELS[x - 1] {
      NothingTaken(out, apps, levels, [LEVELS[x]], level, 0);
    }
  }

  lemma NothingTaken(out: seq<Delivery>, apps: seq<LogAppender>, levels: seq<Level>, thresholds: seq<Level>,
                     level: Level, i: nat)
    requires |levels| == |apps| && i < |thresholds| && !NotAfter(thresholds[i], level)
    requires Took(out, apps, levels, thresholds, level)
    ensures out == []
  {
    hide NotAfter;
    var ps: seq<nat> :|
      && |ps| == |out| && (forall i, j | 0 <= i < j < |ps| :: ps[i] < ps[j])
      && (forall i | 0 <= i < |ps| :: ps[i] < |apps| && out[i].appender == apps[ps[i]])
      && (forall p | 0 <= p < |apps| :: p in ps <==> Takes(levels, thresholds, level, p));
    if ps != [] {
      HasElement(ps);
      assert false;
    }
  }

  lemma HasElement(ps: seq<nat>)
    requires ps != []
    ensures exists p :: p in ps
  {
    assert ps[0] in ps;
  }

  lemma NoDeliveries(level: Level, e: LogEvent)
    ensures Deliveries([], level, e) == []
  {
  }

  lemma AllTook(out: seq<Delivery>, apps: seq<LogAppender>, thresholds: seq<Level>, level: Level, ps: seq<nat>)
    requires ArePositions(ps, apps, level) && |out| == |ps|
    requires forall i | 0 <= i < |ps| :: out[i].appender == apps[ps[i]]
    requires forall i | 0 <= i < |thresholds| :: NotAfter(thresholds[i], level)
    ensures Took(out, apps, LevelsOf(apps), thresholds, level)
  {
    hide NotAfter;
    assert forall p | 0 <= p < |apps| :: p in ps <==> Takes(LevelsOf(apps), thresholds, level, p);
  }

  lemma NoneTook(apps: seq<LogAppender>, levels: seq<Level>, thresholds: seq<Level>, level: Level, i: nat)
    requires |levels| == |apps| && i < |thresholds| && !NotAfter(thresholds[i], level)
    ensures Took([], apps, levels, thresholds, level)
  {
    hide NotAfter;
    var ps: seq<nat> := [];
    assert forall p | 0 <= p < |apps| :: p in ps <==> Takes(levels, thresholds, level, p);
  }

  lemma {:induction false} GoToServing(apps: seq<LogAppender>, level: Level, e: LogEvent)
    requires forall a | a in apps :: a.m_formatter != null
    ensures forall d | d in Deliveries(apps, level, e) :: d.appender in apps
    decreases |apps|
  {
    if apps != [] {
      GoToServing(apps[..|apps| - 1], level, e);
    }
  }

  lemma UpdateTwice(t: Table, name: string, v: LoggerView, w: LoggerView)
    ensures t[name := v][name := w] == t[name := w]
  {
  }

  lemma NothingWritten(w: Writings)
    ensures Grown(w, [], w)
  {
  }
}
