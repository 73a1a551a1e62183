/**
 The log pattern compiler: LogFormatter::init of src/log.cc.

 `Grammar` says what a pattern means, on suffixes of the text; `LogFormatter.Init`
 is the scanner with its jumping index.  A run of k percent signs stands for
 k-1 literal ones followed by a specification: the scanner consumes one
 character of a doubled percent sign, not two.
 */
module Pattern {

  /** What one stretch of a pattern stands for. */
  datatype Piece =
    | Text(text: string)               // literal text
    | Spec(kind: string, fmt: string)  // %kind or %kind{fmt}
    | Unclosed                         // %kind{ with no closing brace

  /** Outcome of reading what follows a percent sign. */
  datatype Reading =
    | Read(kind: string, fmt: string, rest: string)
    | OpenBrace

  predicate IsAlpha(c: char) {
    'a' <= c <= 'z' || 'A' <= c <= 'Z'
  }

  /** The scanner takes a closing brace outside a format for part of the type. */
  predicate IsKindChar(c: char) {
    IsAlpha(c) || c == '}'
  }

  const TABLE: set<string> := {"m", "p", "r", "c", "t", "n", "d", "f", "l", "T", "F", "N"}

  // ---------------------------------------------------------------- grammar

  /** Length of the longest prefix made of type characters. */
  function KindLen(s: string): (k: nat)
    ensures k <= |s|
    ensures forall j | 0 <= j < k :: IsKindChar(s[j])
    ensures k < |s| ==> !IsKindChar(s[k])
  {
    if s == "" || !IsKindChar(s[0]) then 0 else 1 + KindLen(s[1..])
  }

  /** Index of the first closing brace, or the length when there is none. */
  function CloseAt(s: string): (k: nat)
    ensures k <= |s|
    ensures forall j | 0 <= j < k :: s[j] != '}'
    ensures k < |s| ==> s[k] == '}'
  {
    if s == "" || s[0] == '}' then 0 else 1 + CloseAt(s[1..])
  }

  predicate OpensBrace(s: string) {
    KindLen(s) < |s| && s[KindLen(s)] == '{'
  }

  /** Reads the text after a percent sign. */
  function ReadSpec(s: string): (r: Reading)
    ensures r.Read? ==> |r.rest| <= |s|
  {
    var k := KindLen(s);
    if !OpensBrace(s) then Read(s[..k], "", s[k..])
    else
      var body := s[k + 1..];
      var j := CloseAt(body);
      if j == |body| then OpenBrace else Read(s[..k], body[..j], body[j + 1..])
  }

  function Flush(lit: string): seq<Piece> {
    if lit == "" then [] else [Text(lit)]
  }

  /** A percent sign directly before another one is literal text. */
  predicate IsLiteralAt(s: string)
    requires s != ""
  {
    s[0] != '%' || (|s| > 1 && s[1] == '%')
  }

  /** The pieces of `s`, with `lit` the literal text pending before it.  An unclosed
      brace does not flush the pending text and is scanned over again. */
  function Grammar(s: string, lit: string): seq<Piece>
    decreases |s|
  {
    if s == "" then Flush(lit)
    else if IsLiteralAt(s) then Grammar(s[1..], lit + [s[0]])
    else
      match ReadSpec(s[1..])
      case Read(kind, fmt, rest) => Flush(lit) + [Spec(kind, fmt)] + Grammar(rest, "")
      case OpenBrace => [Unclosed] + Grammar(s[1..], lit)
  }

  function Parse(pattern: string): seq<Piece> {
    Grammar(pattern, "")
  }

  predicate IsError(p: Piece) {
    p.Unclosed? || (p.Spec? && p.kind !in TABLE)
  }

  predicate HasError(ps: seq<Piece>) {
    exists p | p in ps :: IsError(p)
  }

  // --------------------------------------------------- printing and parsing

  function PrintPiece(p: Piece): string {
    match p
    case Text(text) => text
    case Spec(kind, fmt) => "%" + kind + "{" + fmt + "}"
    case Unclosed => ""
  }

  function Print(ps: seq<Piece>): string {
    if ps == [] then "" else PrintPiece(ps[0]) + Print(ps[1..])
  }

  /** Percent signs of a literal form its tail. */
  predicate PercentsTrail(s: string) {
    forall i, j | 0 <= i < j < |s| :: s[i] == '%' ==> s[j] == '%'
  }

  /** The shape of an error-free parse: literals are not empty and never adjacent, their
      percent signs form a tail directly before a specification, every type is in
      the table and no format holds a closing brace. */
  predicate Canonical(ps: seq<Piece>) {
    ps == [] ||
    (Canonical(ps[1..]) &&
     match ps[0]
     case Text(text) =>
       && text != ""
       && PercentsTrail(text)
       && (|ps| > 1 ==> ps[1].Spec?)
       && ('%' in text ==> |ps| > 1)
     case Spec(kind, fmt) => kind in TABLE && '}' !in fmt
     case Unclosed => false)
  }

  lemma OpenBraceIsUnclosed(s: string, lit: string)
    requires s != "" && !IsLiteralAt(s) && ReadSpec(s[1..]).OpenBrace?
    ensures Unclosed in Grammar(s, lit) && HasError(Grammar(s, lit))
  {
    assert Grammar(s, lit)[0] == Unclosed;
    assert IsError(Unclosed);
  }

  lemma NoErrorInParts(a: seq<Piece>, b: seq<Piece>, c: seq<Piece>)
    requires !HasError(a + b + c)
    ensures !HasError(b) && !HasError(c)
  {
    assert forall p | p in b || p in c :: p in a + b + c;
  }

  lemma CanonicalStep(lit: string, kind: string, fmt: string, tail: seq<Piece>)
    requires Canonical(tail) && PercentsTrail(lit)
    requires !HasError([Spec(kind, fmt)]) && '}' !in fmt
    ensures Canonical(Flush(lit) + [Spec(kind, fmt)] + tail)
  {
    var spec := [Spec(kind, fmt)] + tail;
    assert Spec(kind, fmt) in [Spec(kind, fmt)];
    assert spec[1..] == tail;
    if lit != "" {
      assert Flush(lit) + [Spec(kind, fmt)] + tail == [Text(lit)] + spec;
      assert ([Text(lit)] + spec)[1..] == spec;
    } else {
      assert Flush(lit) + [Spec(kind, fmt)] + tail == spec;
    }
  }

  lemma {:induction false} GrammarIsCanonical(s: string, lit: string)
    requires !HasError(Grammar(s, lit))
    requires PercentsTrail(lit)
    requires '%' in lit ==> s != "" && s[0] == '%'
    ensures Canonical(Grammar(s, lit))
    decreases |s|
  {
    if s == "" {
    } else if IsLiteralAt(s) {
      assert (lit + [s[0]])[|lit|] == s[0];
      GrammarIsCanonical(s[1..], lit + [s[0]]);
    } else {
      match ReadSpec(s[1..])
      case Read(kind, fmt, rest) =>
        var tail := Grammar(rest, "");
        NoErrorInParts(Flush(lit), [Spec(kind, fmt)], tail);
        GrammarIsCanonical(rest, "");
        CanonicalStep(lit, kind, fmt, tail);
      case OpenBrace =>
        OpenBraceIsUnclosed(s, lit);
        assert false;
    }
  }

  /** Literal text in front of a specification, or of the end, is read as itself. */
  lemma {:induction false} GrammarSkipsText(text: string, rest: string, lit: string)
    requires PercentsTrail(text)
    requires rest != "" ==> !IsLiteralAt(rest)
    requires '%' in text ==> rest != ""
    ensures Grammar(text + rest, lit) == Grammar(rest, lit + text)
    decreases |text|
  {
    var s := text + rest;
    if text == "" {
      assert s == rest && lit + text == lit;
    } else {
      assert s[1..] == text[1..] + rest;
      if text[0] == '%' {
        assert s[1] == '%' by {
          if |text| > 1 { assert text[1] == '%'; } else { assert s[1] == rest[0]; }
        }
      }
      assert IsLiteralAt(s);
      GrammarSkipsText(text[1..], rest, lit + [text[0]]);
      assert lit + [text[0]] + text[1..] == lit + text;
    }
  }

  lemma TableKindLen(kind: string, s: string)
    requires kind in TABLE
    requires s != "" && s[0] == '{'
    ensures |kind| == 1 && IsAlpha(kind[0])
    ensures KindLen(kind + s) == 1
  {
    assert (kind + s)[1..] == s;
  }

  lemma CloseAtFirst(fmt: string, tail: string)
    requires '}' !in fmt
    ensures CloseAt(fmt + "}" + tail) == |fmt|
  {
    var s := fmt + "}" + tail;
    assert s[|fmt|] == '}';
    assert forall j | 0 <= j < |fmt| :: s[j] == fmt[j];
  }

  lemma ReadPrintedSpec(kind: string, fmt: string, tail: string)
    requires kind in TABLE && '}' !in fmt
    ensures ReadSpec((PrintPiece(Spec(kind, fmt)) + tail)[1..]) == Read(kind, fmt, tail)
    ensures !IsLiteralAt(PrintPiece(Spec(kind, fmt)) + tail)
  {
    var s := PrintPiece(Spec(kind, fmt)) + tail;
    var body := fmt + "}" + tail;
    assert s[1..] == kind + ("{" + body);
    TableKindLen(kind, "{" + body);
    assert s[1..][..1] == kind && s[1..][2..] == body;
    CloseAtFirst(fmt, tail);
    assert body[..|fmt|] == fmt && body[|fmt| + 1..] == tail;
  }

  lemma PrintedSpecParses(kind: string, fmt: string, tail: string, lit: string)
    requires kind in TABLE && '}' !in fmt
    ensures var s := PrintPiece(Spec(kind, fmt)) + tail;
            Grammar(s, lit) == Flush(lit) + [Spec(kind, fmt)] + Grammar(tail, "")
  {
    ReadPrintedSpec(kind, fmt, tail);
  }

  /** Literal text before the end, or before a printed specification. */
  lemma PrintedTextParses(text: string, rest: string)
    requires text != "" && PercentsTrail(text)
    requires rest != "" ==> !IsLiteralAt(rest)
    requires '%' in text ==> rest != ""
    ensures Parse(text + rest) == Grammar(rest, text)
  {
    GrammarSkipsText(text, rest, "");
    assert "" + text == text;
  }

  lemma {:induction false} ParseOfPrint(ps: seq<Piece>)
    requires Canonical(ps)
    ensures Parse(Print(ps)) == ps
    decreases |ps|
  {
    if ps == [] {
    } else if ps[0].Spec? {
      ParseOfPrint(ps[1..]);
      PrintedSpecParses(ps[0].kind, ps[0].fmt, Print(ps[1..]), "");
      hide Grammar;
      assert ps == [] + [ps[0]] + ps[1..];
    } else if |ps| == 1 {
      assert ps[1..] == [];
      PrintedTextParses(ps[0].text, "");
    } else {
      ParseOfPrint(ps[1..]);
      SpecAfterText(ps);
    }
  }

  lemma SpecAfterText(ps: seq<Piece>)
    requires Canonical(ps) && |ps| > 1 && ps[0].Text?
    requires Parse(Print(ps[1..])) == ps[1..]
    ensures Parse(Print(ps)) == ps
  {
    var rest := Print(ps[1..]);
    var tail := Print(ps[1..][1..]);
    var text := ps[0].text;
    assert Canonical(ps[1..]);
    var Spec(kind, fmt) := ps[1];
    ReadPrintedSpec(kind, fmt, tail);
    PrintedTextParses(text, rest);
    PrintedSpecParses(kind, fmt, tail, text);
    PrintedSpecParses(kind, fmt, tail, "");
    hide Grammar;
    hide Canonical;
    assert [] + [ps[1]] + Grammar(tail, "") == ps[1..];
    assert ps == [ps[0]] + [ps[1]] + Grammar(tail, "");
  }

  lemma {:induction false} CanonicalHasNoError(ps: seq<Piece>)
    requires Canonical(ps)
    ensures !HasError(ps)
  {
    if ps != [] {
      CanonicalHasNoError(ps[1..]);
      assert forall p | p in ps :: p == ps[0] || p in ps[1..];
    }
  }

  /** Printing an error-free parse and parsing it again gives the same list, without error. */
  lemma Normalisation(pattern: string)
    requires !HasError(Parse(pattern))
    ensures Parse(Print(Parse(pattern))) == Parse(pattern)
    ensures !HasError(Parse(Print(Parse(pattern))))
  {
    GrammarIsCanonical(pattern, "");
    ParseOfPrint(Parse(pattern));
  }

  /** Canonical lists are exactly the results of error-free parses. */
  lemma CanonicalIsImage(ps: seq<Piece>)
    ensures Canonical(ps) <==> exists pattern :: Parse(pattern) == ps && !HasError(ps)
  {
    if Canonical(ps) {
      ParseOfPrint(ps);
      CanonicalHasNoError(ps);
    }
    forall pattern | Parse(pattern) == ps && !HasError(ps)
      ensures Canonical(ps)
    {
      GrammarIsCanonical(pattern, "");
    }
  }

  // ------------------------------------------------------- error propagation

  lemma NoBraceAfterUnclosed(s: string, i: nat, j: nat)
    requires i < j < |s| && s[i] == '%' && s[j] == '%'
    requires ReadSpec(s[i + 1..]).OpenBrace?
    ensures '}' !in s[j + 1..]
  {
    var t := s[i + 1..];
    var k := KindLen(t);
    assert t[j - i - 1] == '%';
    assert j - i - 1 > k;
    var body := t[k + 1..];
    assert forall n | 0 <= n < |body| :: body[n] != '}';
    assert s[j + 1..] == body[j - i - 1 - k..];
  }

  /** Once a brace is left unclosed, every later percent sign that opens a brace leaves
      it unclosed too, and every other one has an empty format. */
  lemma AfterUnclosed(s: string, i: nat, j: nat)
    requires i < j < |s| && s[i] == '%' && s[j] == '%'
    requires ReadSpec(s[i + 1..]).OpenBrace?
    ensures ReadSpec(s[j + 1..]).OpenBrace? <==> OpensBrace(s[j + 1..])
    ensures ReadSpec(s[j + 1..]).Read? ==> ReadSpec(s[j + 1..]).fmt == ""
  {
    NoBraceAfterUnclosed(s, i, j);
    assert '}' !in s[j + 1..];
  }

  lemma ReadSpecNoBrace(s: string)
    requires '}' !in s
    ensures ReadSpec(s).Read? ==> ReadSpec(s).fmt == "" && '}' !in ReadSpec(s).rest
  {
    assert forall j | 0 <= j < |s| :: s[j] != '}';
  }

  lemma {:induction false} NoBraceNoFormat(s: string, lit: string)
    requires '}' !in s
    ensures forall p | p in Grammar(s, lit) :: p.Spec? ==> p.fmt == ""
    decreases |s|
  {
    hide ReadSpec, IsLiteralAt;
    if s == "" {
    } else if IsLiteralAt(s) {
      NoBraceNoFormat(s[1..], lit + [s[0]]);
    } else {
      ReadSpecNoBrace(s[1..]);
      match ReadSpec(s[1..])
      case Read(kind, fmt, rest) =>
        NoBraceNoFormat(rest, "");
      case OpenBrace =>
        NoBraceNoFormat(s[1..], lit);
    }
  }

  /** Text without a percent sign only adds to the pending text. */
  lemma {:induction false} GrammarSkipsPlain(text: string, rest: string, lit: string)
    requires '%' !in text
    ensures Grammar(text + rest, lit) == Grammar(rest, lit + text)
    decreases |text|
  {
    if text == "" {
      assert text + rest == rest && lit + text == lit;
    } else {
      var s := text + rest;
      assert s[1..] == text[1..] + rest && IsLiteralAt(s);
      assert Grammar(s, lit) == Grammar(s[1..], lit + [text[0]]);
      hide Grammar;
      GrammarSkipsPlain(text[1..], rest, lit + [text[0]]);
      assert lit + [text[0]] + text[1..] == lit + text;
    }
  }

  lemma InTail(head: seq<Piece>, tail: seq<Piece>, n: nat, m: nat)
    requires forall i | 0 <= i < |head| :: !head[i].Unclosed?
    requires n < m < |head + tail| && (head + tail)[n].Unclosed?
    ensures n >= |head| && (head + tail)[n] == tail[n - |head|] && (head + tail)[m] == tail[m - |head|]
  {
  }

  lemma GrammarStep(s: string, lit: string)
    requires s != ""
    ensures IsLiteralAt(s) ==> Grammar(s, lit) == Grammar(s[1..], lit + [s[0]])
    ensures !IsLiteralAt(s) ==>
              match ReadSpec(s[1..])
              case Read(kind, fmt, rest) => Grammar(s, lit) == Flush(lit) + [Spec(kind, fmt)] + Grammar(rest, "")
              case OpenBrace => Grammar(s, lit) == [Unclosed] + Grammar(s[1..], lit)
  {
    hide ReadSpec, IsLiteralAt, Flush;
  }

  lemma GrammarOfNothing(s: string, lit: string)
    requires s == ""
    ensures forall i | 0 <= i < |Grammar(s, lit)| :: Grammar(s, lit)[i].Text?
  {
  }

  lemma NothingUnclosed(lit: string, kind: string, fmt: string)
    ensures forall p | p in Flush(lit) + [Spec(kind, fmt)] :: !p.Unclosed?
  {
  }

  /** In the list of pieces: after the first unclosed brace no specification has a format. */
  lemma {:induction false} FormatsStopAtUnclosed(s: string, lit: string, n: nat, m: nat)
    requires n < m < |Grammar(s, lit)|
    requires Grammar(s, lit)[n].Unclosed? && Grammar(s, lit)[m].Spec?
    ensures Grammar(s, lit)[m].fmt == ""
    decreases |s|
  {
    hide Grammar, ReadSpec, IsLiteralAt, Flush;
    if s == "" {
      GrammarOfNothing(s, lit);
    } else if IsLiteralAt(s) {
      GrammarStep(s, lit);
      FormatsStopAtUnclosed(s[1..], lit + [s[0]], n, m);
    } else if ReadSpec(s[1..]).Read? {
      GrammarStep(s, lit);
      var Read(kind, fmt, rest) := ReadSpec(s[1..]);
      var head := Flush(lit) + [Spec(kind, fmt)];
      NothingUnclosed(lit, kind, fmt);
      InTail(head, Grammar(rest, ""), n, m);
      FormatsStopAtUnclosed(rest, "", n - |head|, m - |head|);
    } else {
      UnclosedThenNoFormat(s, lit);
    }
  }

  /** The text after an unclosed brace: type characters, and then nothing that closes. */
  lemma OpenBraceSplits(t: string)
    requires ReadSpec(t).OpenBrace?
    ensures '%' !in t[..KindLen(t)] && '}' !in t[KindLen(t)..]
  {
    var body := t[KindLen(t)..];
    assert body[0] == '{' && body[1..] == t[KindLen(t) + 1..];
  }

  lemma UnclosedThenNoFormat(s: string, lit: string)
    requires s != "" && !IsLiteralAt(s) && ReadSpec(s[1..]).OpenBrace?
    ensures forall m | 0 < m < |Grammar(s, lit)| && Grammar(s, lit)[m].Spec? :: Grammar(s, lit)[m].fmt == ""
  {
    hide Grammar, ReadSpec, IsLiteralAt, Flush;
    var t := s[1..];
    GrammarStep(s, lit);
    var k := KindLen(t);
    OpenBraceSplits(t);
    assert t == t[..k] + t[k..];
    GrammarSkipsPlain(t[..k], t[k..], lit);
    NoBraceNoFormat(t[k..], lit + t[..k]);
  }

  // -------------------------------------------------------- runs of percent signs

  function Percents(k: nat): (s: string)
    ensures |s| == k && forall i | 0 <= i < k :: s[i] == '%'
  {
    seq(k, i => '%')
  }

  /** A run of k percent signs is k-1 literal ones, and the last one opens a specification. */
  lemma PercentRun(k: nat, rest: string, lit: string)
    requires k >= 1 && (rest == "" || rest[0] != '%')
    ensures var s := Percents(k) + rest;
            match ReadSpec(rest)
            case Read(kind, fmt, tail) =>
              Grammar(s, lit) == Flush(lit + Percents(k - 1)) + [Spec(kind, fmt)] + Grammar(tail, "")
            case OpenBrace => Grammar(s, lit) == [Unclosed] + Grammar(rest, lit + Percents(k - 1))
  {
    hide Grammar, ReadSpec, Flush;
    var last := "%" + rest;
    assert Percents(k) + rest == Percents(k - 1) + last && last[1..] == rest;
    GrammarSkipsText(Percents(k - 1), last, lit);
    GrammarStep(last, lit + Percents(k - 1));
  }

  // ------------------------------------------------- what a percent sign stands for

  /** A type: letters, and closing braces too. */
  predicate IsType(kind: string) {
    forall i | 0 <= i < |kind| :: 'a' <= kind[i] <= 'z' || 'A' <= kind[i] <= 'Z' || kind[i] == '}'
  }

  /** No type goes on, and no format begins, with this text. */
  predicate EndsType(rest: string) {
    rest != "" ==> !('a' <= rest[0] <= 'z' || 'A' <= rest[0] <= 'Z' || rest[0] == '}' || rest[0] == '{')
  }

  lemma TypeLen(kind: string, rest: string)
    requires IsType(kind) && (rest != "" ==> !IsKindChar(rest[0]))
    ensures KindLen(kind + rest) == |kind|
  {
    var s := kind + rest;
    assert forall i | 0 <= i < |kind| :: s[i] == kind[i];
    assert |kind| < |s| ==> s[|kind|] == rest[0];
  }

  lemma AfterPercent(tail: string, lit: string)
    requires tail != "" ==> tail[0] != '%'
    ensures match ReadSpec(tail)
            case Read(kind, fmt, rest) =>
              Grammar("%" + tail, lit) == Flush(lit) + [Spec(kind, fmt)] + Grammar(rest, "")
            case OpenBrace => Grammar("%" + tail, lit) == [Unclosed] + Grammar(tail, lit)
  {
    hide ReadSpec, Grammar;
    var s := "%" + tail;
    assert s[1..] == tail;
    GrammarStep(s, lit);
  }

  /** %kind up to a character that neither belongs to a type nor opens a format. */
  lemma PlainSpecIsRead(kind: string, rest: string, lit: string)
    requires IsType(kind) && EndsType(rest) && (kind + rest != "" ==> (kind + rest)[0] != '%')
    ensures Grammar("%" + (kind + rest), lit) == Flush(lit) + [Spec(kind, "")] + Grammar(rest, "")
  {
    hide Grammar, Flush;
    var tail := kind + rest;
    TypeLen(kind, rest);
    assert tail[..|kind|] == kind && tail[|kind|..] == rest;
    assert ReadSpec(tail) == Read(kind, "", rest);
    AfterPercent(tail, lit);
  }

  /** %kind{fmt}, where the format ends at its first closing brace. */
  lemma BracedSpecIsRead(kind: string, fmt: string, rest: string, lit: string)
    requires IsType(kind) && '}' !in fmt
    ensures Grammar("%" + (kind + ("{" + (fmt + "}" + rest))), lit) == Flush(lit) + [Spec(kind, fmt)] + Grammar(rest, "")
  {
    hide Grammar, Flush;
    var body := fmt + "}" + rest;
    var tail := kind + ("{" + body);
    TypeLen(kind, "{" + body);
    assert tail[..|kind|] == kind && tail[|kind|] == '{' && tail[|kind| + 1..] == body;
    CloseAtFirst(fmt, rest);
    assert body[..|fmt|] == fmt && body[|fmt| + 1..] == rest;
    assert ReadSpec(tail) == Read(kind, fmt, rest);
    AfterPercent(tail, lit);
  }

  /** %kind{ with no closing brace after it is an error, and is scanned over again. */
  lemma OpenSpecIsError(kind: string, body: string, lit: string)
    requires IsType(kind) && '}' !in body
    ensures Grammar("%" + (kind + ("{" + body)), lit) == [Unclosed] + Grammar(kind + ("{" + body), lit)
  {
    hide Grammar, Flush;
    var tail := kind + ("{" + body);
    TypeLen(kind, "{" + body);
    assert tail[|kind|] == '{' && tail[|kind| + 1..] == body;
    assert forall i | 0 <= i < |body| :: body[i] != '}';
    assert ReadSpec(tail) == OpenBrace;
    AfterPercent(tail, lit);
  }

  /** A pattern is in error when a brace is left open or a type is none of the twelve. */
  lemma ErrorsExactly(pattern: string)
    ensures HasError(Parse(pattern)) <==>
              exists p | p in Parse(pattern) ::
                p.Unclosed? || (p.Spec? && p.kind !in ["m", "p", "r", "c", "t", "n", "d", "f", "l", "T", "F", "N"])
  {
    hide Parse;
    forall p: Piece
      ensures IsError(p) <==>
                p.Unclosed? || (p.Spec? && p.kind !in ["m", "p", "r", "c", "t", "n", "d", "f", "l", "T", "F", "N"])
    {
    }
  }

  // ------------------------------------------------------------- step counts

  /** Iterations of the inner loop for the text after a percent sign. */
  function ScanSteps(s: string): (n: nat)
    ensures n <= |s|
  {
    var k := KindLen(s);
    if k == |s| then k
    else if s[k] != '{' then k + 1
    else
      var j := CloseAt(s[k + 1..]);
      if j == |s| - k - 1 then |s| else k + 1 + j + 1
  }

  /** Iterations of the inner loop over a whole pattern. */
  function Cost(s: string): nat
    decreases |s|
  {
    if s == "" then 0
    else if IsLiteralAt(s) then Cost(s[1..])
    else
      ScanSteps(s[1..]) +
      match ReadSpec(s[1..])
      case Read(_, _, rest) => Cost(rest)
      case OpenBrace => Cost(s[1..])
  }

  lemma Product(a: nat, b: nat, c: nat, d: nat)
    requires a <= c && b <= d
    ensures a * b <= c * d
  {
    assert a * b <= c * b;
  }

  lemma SquareStep(n: int, m: int)
    requires 0 <= m <= n - 1
    ensures m * (m - 1) + 2 * (n - 1) <= n * (n - 1)
  {
    if m >= 1 {
      Product(m, m - 1, n - 1, n - 2);
    }
    assert (n - 1) * (n - 2) + 2 * (n - 1) == n * (n - 1);
  }

  lemma {:induction false} CostIsQuadratic(s: string)
    ensures 2 * Cost(s) <= |s| * (|s| - 1)
    decreases |s|
  {
    if s == "" {
    } else {
      var next := if IsLiteralAt(s) || ReadSpec(s[1..]).OpenBrace? then s[1..] else ReadSpec(s[1..]).rest;
      CostIsQuadratic(next);
      SquareStep(|s|, |next|);
    }
  }

  lemma {:induction false} CostIsLinear(s: string, lit: string)
    requires Unclosed !in Grammar(s, lit)
    ensures Cost(s) <= |s|
    decreases |s|
  {
    if s == "" {
    } else if IsLiteralAt(s) {
      CostIsLinear(s[1..], lit + [s[0]]);
    } else {
      match ReadSpec(s[1..])
      case Read(kind, fmt, rest) =>
        assert forall p | p in Grammar(rest, "") :: p in Grammar(s, lit);
        CostIsLinear(rest, "");
      case OpenBrace =>
        OpenBraceIsUnclosed(s, lit);
        assert false;
    }
  }

  function OpenBraces(k: nat): (s: string)
    ensures |s| == 2 * k && '}' !in s
    ensures k > 0 ==> s[0] == '%' && s[1] == '{'
  {
    if k == 0 then "" else "%{" + OpenBraces(k - 1)
  }

  lemma OpenBracesStep(k: nat)
    requires k > 0
    ensures var s := OpenBraces(k);
            && !IsLiteralAt(s) && ReadSpec(s[1..]).OpenBrace? && ScanSteps(s[1..]) == 2 * k - 1
            && IsLiteralAt(s[1..]) && s[1..][1..] == OpenBraces(k - 1)
  {
    var s := OpenBraces(k);
    assert s[1..][0] == '{' && s[1..][1..] == OpenBraces(k - 1);
    assert KindLen(s[1..]) == 0;
  }

  lemma CostStep(s: string)
    requires s != ""
    ensures IsLiteralAt(s) ==> Cost(s) == Cost(s[1..])
    ensures !IsLiteralAt(s) && ReadSpec(s[1..]).OpenBrace? ==> Cost(s) == ScanSteps(s[1..]) + Cost(s[1..])
  {
    hide IsLiteralAt, ReadSpec, ScanSteps;
  }

  /** The quadratic bound is of the right order: patterns of size 2k that need k*k steps. */
  lemma {:induction false} CostIsReallyQuadratic(k: nat)
    ensures Cost(OpenBraces(k)) == k * k
  {
    hide IsLiteralAt, ReadSpec, ScanSteps;
    if k > 0 {
      var s := OpenBraces(k);
      OpenBracesStep(k);
      CostStep(s);
      CostStep(s[1..]);
      CostIsReallyQuadratic(k - 1);
      assert (k - 1) * (k - 1) + 2 * k - 1 == k * k;
    }
  }

  // ----------------------------------------------------------------- items

  /** The classes derived from FormatItem. */
  datatype FormatItem =
    | StringItem(s: string) | MessageItem | LevelItem | ElapseItem | NameItem | ThreadIdItem
    | NewLineItem | DateTimeItem(format: string) | FilenameItem | LineItem | TabItem
    | FiberIdItem | ThreadNameItem

  /** An entry of the scanner's vector: text, format and whether it is a specification. */
  datatype Entry = Entry(str: string, fmt: string, isSpec: bool)

  const DEFAULT_DATE: string := "%Y-%m-%d %H:%M:%S"

  function EntryOf(p: Piece): Entry {
    match p
    case Text(text) => Entry(text, "", false)
    case Spec(kind, fmt) => Entry(kind, fmt, true)
    case Unclosed => Entry("<<pattern_error>>", "", false)
  }

  function ItemOf(e: Entry): FormatItem {
    if !e.isSpec then StringItem(e.str)
    else if e.str == "m" then MessageItem
    else if e.str == "p" then LevelItem
    else if e.str == "r" then ElapseItem
    else if e.str == "c" then NameItem
    else if e.str == "t" then ThreadIdItem
    else if e.str == "n" then NewLineItem
    else if e.str == "d" then DateTimeItem(if e.fmt == "" then DEFAULT_DATE else e.fmt)
    else if e.str == "f" then FilenameItem
    else if e.str == "l" then LineItem
    else if e.str == "T" then TabItem
    else if e.str == "F" then FiberIdItem
    else if e.str == "N" then ThreadNameItem
    else StringItem("<<error_format %" + e.str + ">>")
  }

  function Entries(ps: seq<Piece>): (es: seq<Entry>)
    ensures |es| == |ps|
  {
    seq(|ps|, i requires 0 <= i < |ps| => EntryOf(ps[i]))
  }

  function ItemsOf(pattern: string): (items: seq<FormatItem>)
    ensures |items| == |Parse(pattern)|
  {
    var ps := Parse(pattern);
    seq(|ps|, i requires 0 <= i < |ps| => ItemOf(EntryOf(ps[i])))
  }

  // ----------------------------------------------------------- the scanner

  /** Exit of the inner loop outside a format. */
  lemma ExitPlain(p: string, i: nat, n: nat)
    requires i < n <= |p|
    requires forall j | i < j < n :: IsKindChar(p[j])
    requires n < |p| ==> !IsKindChar(p[n]) && p[n] != '{'
    ensures ReadSpec(p[i + 1..]) == Read(p[i + 1..n], "", p[n..])
    ensures ScanSteps(p[i + 1..]) == n - i - 1 + if n < |p| then 1 else 0
  {
    var t := p[i + 1..];
    assert forall j | 0 <= j < |t| :: t[j] == p[i + 1 + j];
    assert KindLen(t) == n - i - 1;
    assert t[..n - i - 1] == p[i + 1..n] && t[n - i - 1..] == p[n..];
  }

  /** The type and the position of the brace that opens a format. */
  lemma BraceAt(p: string, i: nat, b: nat)
    requires i < b < |p|
    requires forall j | i < j < b :: IsKindChar(p[j])
    requires p[b] == '{'
    ensures var t := p[i + 1..]; KindLen(t) == b - i - 1 && OpensBrace(t)
    ensures var t := p[i + 1..]; t[..b - i - 1] == p[i + 1..b] && t[b - i - 1 + 1..] == p[b + 1..]
  {
    var t := p[i + 1..];
    assert forall j | 0 <= j < |t| :: t[j] == p[i + 1 + j];
    assert KindLen(t) == b - i - 1;
  }

  lemma FirstClose(p: string, b: nat, n: nat)
    requires b < n < |p| && p[n] == '}'
    requires forall j | b < j < n :: p[j] != '}'
    ensures CloseAt(p[b + 1..]) == n - b - 1
  {
    var body := p[b + 1..];
    assert forall j | 0 <= j < |body| :: body[j] == p[b + 1 + j];
    assert body[n - b - 1] == '}';
  }

  /** Exit of the inner loop at a closing brace. */
  lemma ExitClosed(p: string, i: nat, b: nat, n: nat)
    requires i < b < n < |p|
    requires forall j | i < j < b :: IsKindChar(p[j])
    requires p[b] == '{' && p[n] == '}'
    requires forall j | b < j < n :: p[j] != '}'
    ensures ReadSpec(p[i + 1..]) == Read(p[i + 1..b], p[b + 1..n], p[n + 1..])
    ensures ScanSteps(p[i + 1..]) == n - i
  {
    hide KindLen, CloseAt, IsKindChar;
    BraceAt(p, i, b);
    FirstClose(p, b, n);
    var body := p[b + 1..];
    assert body[..n - b - 1] == p[b + 1..n] && body[n - b - 1 + 1..] == p[n + 1..];
  }

  /** Exit of the inner loop at the end of the text, inside a format. */
  lemma ExitOpen(p: string, i: nat, b: nat)
    requires i < b < |p|
    requires forall j | i < j < b :: IsKindChar(p[j])
    requires p[b] == '{'
    requires forall j | b < j < |p| :: p[j] != '}'
    ensures ReadSpec(p[i + 1..]) == OpenBrace
    ensures ScanSteps(p[i + 1..]) == |p| - i - 1
  {
    BraceAt(p, i, b);
    var body := p[b + 1..];
    assert forall j | 0 <= j < |body| :: body[j] == p[b + 1 + j];
  }

  /** One turn of the outer loop that reads a specification. */
  lemma OuterTurn(p: string, i: nat, nstr: string)
    requires i < |p| && !IsLiteralAt(p[i..])
    ensures match ReadSpec(p[i + 1..])
            case Read(kind, fmt, rest) =>
              && Grammar(p[i..], nstr) == Flush(nstr) + [Spec(kind, fmt)] + Grammar(rest, "")
              && Cost(p[i..]) == ScanSteps(p[i + 1..]) + Cost(rest)
            case OpenBrace =>
              && Grammar(p[i..], nstr) == [Unclosed] + Grammar(p[i + 1..], nstr)
              && Cost(p[i..]) == ScanSteps(p[i + 1..]) + Cost(p[i + 1..])
  {
    assert p[i..][1..] == p[i + 1..];
  }

  lemma LiteralTurn(p: string, i: nat, nstr: string)
    requires i < |p| && IsLiteralAt(p[i..])
    ensures Grammar(p[i..], nstr) == Grammar(p[i + 1..], nstr + [p[i]])
    ensures Cost(p[i..]) == Cost(p[i + 1..])
  {
    assert p[i..][1..] == p[i + 1..];
  }

  /** State of the outer loop at index `i`: `vec` holds the pieces `done`, and what is
      left of the text yields the rest of the parse. */
  ghost predicate Scanned(p: string, i: int, nstr: string, done: seq<Piece>, vec: seq<Entry>,
                          error: bool, steps: nat)
  {
    && 0 <= i <= |p|
    && done + Grammar(p[i..], nstr) == Parse(p)
    && vec == Entries(done)
    && (error <==> Unclosed in done)
    && steps + Cost(p[i..]) == Cost(p)
  }

  lemma ScannedStart(p: string)
    ensures Scanned(p, 0, "", [], [], false, 0)
  {
    assert p[0..] == p;
  }

  lemma ScannedLiteral(p: string, i: int, nstr: string, done: seq<Piece>, vec: seq<Entry>,
                       error: bool, steps: nat)
    requires Scanned(p, i, nstr, done, vec, error, steps)
    requires i < |p| && IsLiteralAt(p[i..])
    ensures Scanned(p, i + 1, nstr + [p[i]], done, vec, error, steps)
  {
    LiteralTurn(p, i, nstr);
  }

  function Pending(nstr: string): seq<Entry> {
    if nstr == "" then [] else [Entry(nstr, "", false)]
  }

  lemma ScannedSpec(p: string, i: int, nstr: string, done: seq<Piece>, vec: seq<Entry>,
                    error: bool, steps: nat, n: nat, kind: string, fmt: string)
    requires Scanned(p, i, nstr, done, vec, error, steps)
    requires i < n <= |p| && !IsLiteralAt(p[i..])
    requires ReadSpec(p[i + 1..]) == Read(kind, fmt, p[n..])
    ensures Scanned(p, n, "", done + Flush(nstr) + [Spec(kind, fmt)],
                    vec + Pending(nstr) + [Entry(kind, fmt, true)], error, steps + ScanSteps(p[i + 1..]))
  {
    hide Grammar;
    hide Cost;
    hide ReadSpec;
    hide ScanSteps;
    hide Entries;
    hide Flush;
    OuterTurn(p, i, nstr);
    SpecEntries(done, nstr, kind, fmt);
    var rest := Grammar(p[n..], "");
    assert done + (Flush(nstr) + [Spec(kind, fmt)] + rest) == done + Flush(nstr) + [Spec(kind, fmt)] + rest;
  }

  lemma SpecEntries(done: seq<Piece>, nstr: string, kind: string, fmt: string)
    ensures Entries(done + Flush(nstr) + [Spec(kind, fmt)])
            == Entries(done) + Pending(nstr) + [Entry(kind, fmt, true)]
    ensures Unclosed in done + Flush(nstr) + [Spec(kind, fmt)] <==> Unclosed in done
  {
    EntriesAppend(done, Flush(nstr));
    EntriesAppend(done + Flush(nstr), [Spec(kind, fmt)]);
    assert Entries(Flush(nstr)) == Pending(nstr);
    assert Entries([Spec(kind, fmt)]) == [Entry(kind, fmt, true)];
  }

  lemma EntriesAppend(a: seq<Piece>, b: seq<Piece>)
    ensures Entries(a + b) == Entries(a) + Entries(b)
  {
  }

  lemma ScannedUnclosed(p: string, i: int, nstr: string, done: seq<Piece>, vec: seq<Entry>,
                        error: bool, steps: nat)
    requires Scanned(p, i, nstr, done, vec, error, steps)
    requires i < |p| && !IsLiteralAt(p[i..]) && ReadSpec(p[i + 1..]).OpenBrace?
    ensures Scanned(p, i + 1, nstr, done + [Unclosed], vec + [EntryOf(Unclosed)], true,
                    steps + ScanSteps(p[i + 1..]))
  {
    hide Grammar;
    hide Cost;
    hide ReadSpec;
    hide ScanSteps;
    OuterTurn(p, i, nstr);
    assert Entries(done + [Unclosed]) == Entries(done) + [EntryOf(Unclosed)];
    var rest := Grammar(p[i + 1..], nstr);
    assert done + ([Unclosed] + rest) == done + [Unclosed] + rest;
  }

  lemma ScannedEnd(p: string, i: int, nstr: string, done: seq<Piece>, vec: seq<Entry>,
                   error: bool, steps: nat)
    requires Scanned(p, i, nstr, done, vec, error, steps) && i >= |p|
    ensures vec + Pending(nstr) == Entries(Parse(p))
    ensures error <==> Unclosed in Parse(p)
    ensures steps == Cost(p)
  {
    assert Entries(done + Flush(nstr)) == Entries(done) + Pending(nstr);
  }

  /** A formatter does not change once it is made: init fills the items and the error flag
      that the constructor stores. */
  class LogFormatter {
    const m_pattern: string
    const m_items: seq<FormatItem>
    const m_error: bool

    constructor (pattern: string)
      ensures m_pattern == pattern && Sound()
      ensures m_error <==> HasError(Parse(pattern))
    {
      m_pattern := pattern;
      var items, error, steps := Init(pattern);
      m_items := items;
      m_error := error;
    }

    /** The items are those of the pattern. */
    predicate Sound() {
      m_items == ItemsOf(m_pattern)
    }

    /** Scans the pattern; `steps` counts the iterations of the inner loop. */
    static method Init(pattern: string) returns (items: seq<FormatItem>, error: bool, ghost steps: nat)
      ensures items == ItemsOf(pattern)
      ensures error <==> HasError(Parse(pattern))
      ensures steps == Cost(pattern)
      ensures 2 * steps <= |pattern| * (|pattern| - 1)
      ensures Unclosed !in Parse(pattern) ==> steps <= |pattern|
    {
      hide Scanned;
      hide Grammar;
      hide Cost;
      hide ReadSpec;
      hide ScanSteps;
      hide HasError;
      hide Entries;
      var size := |pattern|;
      var vec: seq<Entry> := [];
      var nstr: string := "";
      ghost var done: seq<Piece> := [];
      error := false;
      steps := 0;
      var i := 0;
      ScannedStart(pattern);
      while i < size
        invariant Scanned(pattern, i, nstr, done, vec, error, steps)
      {
        if pattern[i] != '%' || (i + 1 < size && pattern[i + 1] == '%') {
          ScannedLiteral(pattern, i, nstr, done, vec, error, steps);
          nstr := nstr + [pattern[i]];
          i := i + 1;
          continue;
        }
        var n, fmtStatus, str, fmt, spent := ScanSpec(pattern, i);
        if fmtStatus == 0 {
          ScannedSpec(pattern, i, nstr, done, vec, error, steps, n, str, fmt);
          done := done + Flush(nstr) + [Spec(str, fmt)];
          assert nstr == "" ==> vec + Pending(nstr) == vec;
          if nstr != "" {
            vec := vec + [Entry(nstr, "", false)];
            nstr := "";
          }
          vec := vec + [Entry(str, fmt, true)];
          i := n - 1;
        } else {
          ScannedUnclosed(pattern, i, nstr, done, vec, error, steps);
          done := done + [Unclosed];
          error := true;
          vec := vec + [Entry("<<pattern_error>>", fmt, false)];
        }
        steps := steps + spent;
        i := i + 1;
      }
      ScannedEnd(pattern, i, nstr, done, vec, error, steps);
      assert nstr == "" ==> vec + Pending(nstr) == vec;
      if nstr != "" {
        vec := vec + [Entry(nstr, "", false)];
      }
      CostIsQuadratic(pattern);
      if Unclosed !in Parse(pattern) {
        CostIsLinear(pattern, "");
      }
      items, error := BuildItems(vec, error, Parse(pattern));
    }

    /** The inner loop of Init, from the percent sign at `i`. */
    static method ScanSpec(pattern: string, i: nat) returns (n: nat, fmtStatus: int, str: string, fmt: string, ghost spent: nat)
      requires i < |pattern|
      ensures i < n <= |pattern|
      ensures fmtStatus == 0 || fmtStatus == 1
      ensures fmtStatus == 0 ==> ReadSpec(pattern[i + 1..]) == Read(str, fmt, pattern[n..])
      ensures fmtStatus == 1 ==> ReadSpec(pattern[i + 1..]) == OpenBrace && fmt == ""
      ensures spent == ScanSteps(pattern[i + 1..])
    {
      hide ReadSpec;
      hide ScanSteps;
      var size := |pattern|;
      n, fmtStatus, str, fmt, spent := i + 1, 0, "", "", 0;
      var fmtBegin := 0;
      while n < size
        invariant i < n <= size && (fmtStatus == 0 || fmtStatus == 1)
        invariant spent == n - i - 1
        invariant fmt == ""
        invariant fmtStatus == 0 ==> forall j | i < j < n :: IsKindChar(pattern[j])
        invariant fmtStatus == 0 ==> str == if n == size then pattern[i + 1..] else ""
        invariant fmtStatus == 1 ==> i < fmtBegin < n && pattern[fmtBegin] == '{'
        invariant fmtStatus == 1 ==> forall j | i < j < fmtBegin :: IsKindChar(pattern[j])
        invariant fmtStatus == 1 ==> forall j | fmtBegin < j < n :: pattern[j] != '}'
        invariant fmtStatus == 1 && n < size ==> str == pattern[i + 1..fmtBegin]
        decreases size - n
      {
        spent := spent + 1;
        if fmtStatus == 0 && !IsAlpha(pattern[n]) && pattern[n] != '{' && pattern[n] != '}' {
          str := pattern[i + 1..n];
          ExitPlain(pattern, i, n);
          return;
        }
        if fmtStatus == 0 {
          if pattern[n] == '{' {
            str := pattern[i + 1..n];
            fmtStatus := 1;
            fmtBegin := n;
            n := n + 1;
            continue;
          }
        } else if pattern[n] == '}' {
          fmt := pattern[fmtBegin + 1..n];
          fmtStatus := 0;
          ExitClosed(pattern, i, fmtBegin, n);
          n := n + 1;
          return;
        }
        n := n + 1;
        if n == size {
          if str == "" {
            str := pattern[i + 1..];
          }
        }
      }
      if fmtStatus == 0 {
        ExitPlain(pattern, i, n);
        assert pattern[i + 1..] == pattern[i + 1..n];
      } else {
        ExitOpen(pattern, i, fmtBegin);
      }
    }

    /** The last loop of Init: types are looked up in the table of items. */
    static method BuildItems(vec: seq<Entry>, scanError: bool, ghost ps: seq<Piece>)
      returns (items: seq<FormatItem>, error: bool)
      requires vec == Entries(ps) && (scanError <==> Unclosed in ps)
      ensures |items| == |ps| && forall i | 0 <= i < |ps| :: items[i] == ItemOf(EntryOf(ps[i]))
      ensures error <==> HasError(ps)
    {
      items, error := [], scanError;
      var x := 0;
      while x < |vec|
        invariant 0 <= x <= |vec|
        invariant |items| == x && forall j | 0 <= j < x :: items[j] == ItemOf(vec[j])
        invariant error <==> Unclosed in ps || exists j | 0 <= j < x :: IsError(ps[j])
      {
        items := items + [ItemOf(vec[x])];
        if vec[x].isSpec && vec[x].str !in TABLE {
          error := true;
        }
        x := x + 1;
      }
    }
  }
}
