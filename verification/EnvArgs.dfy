/**
 Env::init's argument parser and the table it fills (src/env.cc:37-92).

 argv is a sequence of strings; reading argv[i][0] of an empty string finds the
 terminator, so an empty string is a value.
 */
module EnvArgs {
  import opened Wrappers

  /** One option: a key, and its value when one follows it. */
  datatype Arg = Arg(key: string, value: Option<string>)

  predicate Dashed(s: string) {
    s != "" && s[0] == '-'
  }

  predicate ValidArg(a: Arg) {
    a.key != "" && (a.value.Some? ==> !Dashed(a.value.value))
  }

  predicate AllValid(args: seq<Arg>) {
    forall i | 0 <= i < |args| :: ValidArg(args[i])
  }

  function PrintArg(a: Arg): seq<string> {
    ["-" + a.key] + if a.value.Some? then [a.value.value] else []
  }

  function PrintArgs(args: seq<Arg>): seq<string> {
    if args == [] then [] else PrintArg(args[0]) + PrintArgs(args[1..])
  }

  /** `-key` takes the next word as its value unless that begins with a dash. */
  function ParseArgs(words: seq<string>): Option<seq<Arg>> {
    if words == [] then Some([])
    else if !Dashed(words[0]) || |words[0]| == 1 then None
    else
      var valued := |words| > 1 && !Dashed(words[1]);
      var rest := ParseArgs(if valued then words[2..] else words[1..]);
      if rest.None? then None
      else Some([Arg(words[0][1..], if valued then Some(words[1]) else None)] + rest.value)
  }

  /** What a list of options leaves in the table. */
  function Store(m: map<string, string>, args: seq<Arg>): map<string, string>
    decreases |args|
  {
    if args == [] then m else Store(m[args[0].key := ValueOf(args[0])], args[1..])
  }

  function ValueOf(a: Arg): string {
    if a.value.Some? then a.value.value else ""
  }

  // ------------------------------------------------------------------- the loop

  /** The loop from a word on, with the key waiting for its value. */
  function Scan(words: seq<string>, key: Option<string>, m: map<string, string>): (bool, map<string, string>) {
    var flushed := if key.Some? then m[key.value := ""] else m;
    if words == [] then (true, flushed)
    else if Dashed(words[0]) then
      if |words[0]| > 1 then Scan(words[1..], Some(words[0][1..]), flushed) else (false, m)
    else if key.Some? then Scan(words[1..], None, m[key.value := words[0]])
    else (false, m)
  }

  lemma {:induction false} ScanIsParse(words: seq<string>, key: Option<string>, m: map<string, string>)
    ensures key.None? ==> (Scan(words, None, m).0 <==> ParseArgs(words).Some?)
    ensures key.None? && ParseArgs(words).Some? ==> Scan(words, None, m).1 == Store(m, ParseArgs(words).value)
    ensures key.Some? && (words == [] || Dashed(words[0])) ==> Scan(words, key, m).0 == Scan(words, None, m[key.value := ""]).0
    ensures key.Some? && (words == [] || Dashed(words[0])) && Scan(words, key, m).0 ==>
              Scan(words, key, m) == Scan(words, None, m[key.value := ""])
    decreases |words|
  {
    if key.None? && words != [] && Dashed(words[0]) && |words[0]| > 1 {
      var k := words[0][1..];
      ScanIsParse(words[1..], Some(k), m);
      if |words| > 1 && !Dashed(words[1]) {
        assert words[1..][1..] == words[2..];
        ScanIsParse(words[2..], None, m[k := words[1]]);
      } else {
        ScanIsParse(words[1..], None, m[k := ""]);
      }
    }
  }

  // -------------------------------------------------------------- what is accepted

  /** A word is in place: not a lone dash, and a value only right after a key. */
  predicate InPlace(words: seq<string>, i: nat)
    requires i < |words|
  {
    if Dashed(words[i]) then |words[i]| > 1 else i > 0 && Dashed(words[i - 1])
  }

  lemma InPlaceAfter(words: seq<string>, n: nat)
    requires 1 <= n <= |words|
    requires (n == 1 && (|words| > 1 ==> Dashed(words[1]))) || (n == 2 && !Dashed(words[1]))
    ensures forall i | n <= i < |words| :: InPlace(words, i) <==> InPlace(words[n..], i - n)
  {
    forall i | n <= i < |words| ensures InPlace(words, i) <==> InPlace(words[n..], i - n) {
      assert words[i] == words[n..][i - n];
    }
  }

  /** The accepted lists are those whose every word is in place. */
  lemma {:induction false} AcceptedPointwise(words: seq<string>)
    ensures ParseArgs(words).Some? <==> forall i | 0 <= i < |words| :: InPlace(words, i)
    decreases |words|
  {
    if words != [] && InPlace(words, 0) {
      var n := if |words| > 1 && !Dashed(words[1]) then 2 else 1;
      AcceptedPointwise(words[n..]);
      InPlaceAfter(words, n);
      if forall i | 0 <= i < |words[n..]| :: InPlace(words[n..], i) {
        forall i | n <= i < |words| ensures InPlace(words, i) {
          assert InPlace(words[n..], i - n);
        }
      } else {
        var i :| 0 <= i < |words[n..]| && !InPlace(words[n..], i);
        assert !InPlace(words, i + n);
      }
    }
  }

  predicate FirstBad(words: seq<string>, k: nat) {
    k < |words| && !InPlace(words, k) && forall i | 0 <= i < k :: InPlace(words, i)
  }

  /** The options before a bad word, without a last one still waiting for its value. */
  function Completed(args: seq<Arg>): seq<Arg> {
    if args != [] && args[|args| - 1].value.None? then args[..|args| - 1] else args
  }

  /** A failing parse has stored the options completed before the first bad word. */
  predicate StoredBefore(words: seq<string>, k: nat, m: map<string, string>, r: map<string, string>) {
    k < |words| && ParseArgs(words[..k]).Some? && r == Store(m, Completed(ParseArgs(words[..k]).value))
  }

  lemma {:induction false} ScanFails(words: seq<string>, m: map<string, string>) returns (k: nat)
    requires ParseArgs(words).None?
    ensures FirstBad(words, k) && StoredBefore(words, k, m, Scan(words, None, m).1)
    ensures !Scan(words, None, m).0
    decreases |words|
  {
    if !InPlace(words, 0) {
      k := 0;
    } else {
      var n := if !Dashed(words[1]) then 2 else 1;
      var key := words[0][1..];
      var val := if n == 2 then words[1] else "";
      if words[1] == "-" {
        k := 1;
        assert words[..1][1..] == [];
      } else {
        var j := ScanFails(words[n..], m[key := val]);
        k := j + n;
        FirstBadAfter(words, n, j);
        CompletedAfter(words, n, j);
        assert n == 2 ==> words[1..][1..] == words[2..];
      }
    }
  }

  lemma FirstBadAfter(words: seq<string>, n: nat, j: nat)
    requires 1 <= n <= |words| && InPlace(words, 0)
    requires (n == 1 && |words| > 1 && Dashed(words[1])) || (n == 2 && !Dashed(words[1]))
    requires FirstBad(words[n..], j)
    ensures FirstBad(words, j + n)
  {
    InPlaceAfter(words, n);
    forall i | 0 <= i < j + n ensures InPlace(words, i) {
      if i >= n {
        assert InPlace(words[n..], i - n);
      }
    }
  }

  lemma CompletedAfter(words: seq<string>, n: nat, j: nat)
    requires 1 <= n <= |words| && Dashed(words[0]) && |words[0]| > 1
    requires (n == 1 && |words| > 1 && Dashed(words[1]) && j >= 1) || (n == 2 && !Dashed(words[1]))
    requires j < |words| - n && ParseArgs(words[n..][..j]).Some?
    ensures ParseArgs(words[..j + n]).Some?
    ensures var a := Arg(words[0][1..], if n == 2 then Some(words[1]) else None);
            Completed(ParseArgs(words[..j + n]).value) == [a] + Completed(ParseArgs(words[n..][..j]).value)
  {
    var rest := words[n..][..j];
    assert words[..j + n][n..] == rest;
    assert j > 0 ==> rest != [] && ParseArgs(rest).value != [];
    var a := Arg(words[0][1..], if n == 2 then Some(words[1]) else None);
    var l := ParseArgs(rest).value;
    assert ParseArgs(words[..j + n]).value == [a] + l;
    assert l != [] ==> ([a] + l)[..|l|] == [a] + l[..|l| - 1];
  }

  // ------------------------------------------------------------- parse and print

  /** Parsing finds valid options that print as the words. */
  lemma {:induction false} PrintOfParse(words: seq<string>)
    requires ParseArgs(words).Some?
    ensures AllValid(ParseArgs(words).value) && PrintArgs(ParseArgs(words).value) == words
    decreases |words|
  {
    if words != [] {
      var valued := |words| > 1 && !Dashed(words[1]);
      PrintOfParse(if valued then words[2..] else words[1..]);
      assert "-" + words[0][1..] == words[0];
    }
  }

  /** Valid options parse back from what they print as. */
  lemma {:induction false} ParseOfPrint(args: seq<Arg>)
    requires AllValid(args)
    ensures ParseArgs(PrintArgs(args)) == Some(args)
  {
    if args != [] {
      ParseOfPrint(args[1..]);
      var words := PrintArgs(args);
      var rest := PrintArgs(args[1..]);
      assert rest != [] ==> rest[0] == "-" + args[1].key;
      assert words[0] == "-" + args[0].key && words[0][1..] == args[0].key;
      if args[0].value.Some? {
        assert words[1] == args[0].value.value && words[2..] == rest;
      } else {
        assert words[1..] == rest;
      }
      assert args == [args[0]] + args[1..];
    }
  }

  /** The accepted lists are exactly the printed lists of valid options, each from one list. */
  lemma AcceptedArePrinted(words: seq<string>, args: seq<Arg>)
    ensures ParseArgs(words) == Some(args) <==> AllValid(args) && PrintArgs(args) == words
  {
    if ParseArgs(words) == Some(args) {
      PrintOfParse(words);
    }
    if AllValid(args) && PrintArgs(args) == words {
      ParseOfPrint(args);
    }
  }

  // --------------------------------------------------------------------- the table

  predicate LastOf(args: seq<Arg>, key: string, i: nat) {
    i < |args| && args[i].key == key && forall j | i < j < |args| :: args[j].key != key
  }

  /** The last option with a key decides its value; other keys stay as they were. */
  lemma {:induction false} LastWins(m: map<string, string>, args: seq<Arg>, key: string) returns (i: Option<nat>)
    ensures i.Some? ==> LastOf(args, key, i.value)
    ensures i.None? ==> forall j | 0 <= j < |args| :: args[j].key != key
    ensures i.Some? ==> key in Store(m, args) && Store(m, args)[key] == ValueOf(args[i.value])
    ensures i.None? ==> (key in Store(m, args) <==> key in m) && (key in m ==> Store(m, args)[key] == m[key])
    decreases |args|
  {
    i := None;
    if args != [] {
      i := LastWins(m[args[0].key := ValueOf(args[0])], args[1..], key);
      if i.Some? {
        i := Some(i.value + 1);
      } else if args[0].key == key {
        i := Some(0);
      }
    }
  }

  /** The options spell out a table: each agrees with it and none of its keys is missing. */
  ghost predicate Spells(args: seq<Arg>, m: map<string, string>) {
    && (forall i | 0 <= i < |args| :: args[i].key in m && m[args[i].key] == ValueOf(args[i]))
    && (forall k | k in m :: exists i :: 0 <= i < |args| && args[i].key == k)
  }

  /** A table of valid keys and values, spelled out as words in any order, is parsed back
      from an empty table. */
  lemma TableRoundTrip(m: map<string, string>, args: seq<Arg>)
    requires AllValid(args) && Spells(args, m)
    ensures ParseArgs(PrintArgs(args)).Some?
    ensures Store(map[], ParseArgs(PrintArgs(args)).value) == m
  {
    ParseOfPrint(args);
    SpelledIsStored(m, map[], args);
  }

  /** A table that can come from the command line. */
  predicate ValidTable(m: map<string, string>) {
    forall k | k in m :: k != "" && !Dashed(m[k])
  }

  /** Every such table can be spelled out. */
  lemma {:induction false} SpellTable(m: map<string, string>) returns (args: seq<Arg>)
    requires ValidTable(m)
    ensures AllValid(args) && Spells(args, m)
    decreases |m|
  {
    hide Spells;
    args := [];
    if m == map[] {
      NothingToSpell();
    } else {
      var k :| k in m;
      var rest := SpellTable(m - {k});
      args := [Arg(k, Some(m[k]))] + rest;
      SpellsOneMore(m, k, rest);
    }
  }

  lemma NothingToSpell()
    ensures Spells([], map[])
  {
  }

  lemma SpellsOneMore(m: map<string, string>, k: string, rest: seq<Arg>)
    requires k in m && Spells(rest, m - {k})
    ensures Spells([Arg(k, Some(m[k]))] + rest, m)
  {
    var args := [Arg(k, Some(m[k]))] + rest;
    forall key | key in m ensures exists i :: 0 <= i < |args| && args[i].key == key {
      if key == k {
        assert args[0].key == key;
      } else {
        assert key in m - {k};
        var i :| 0 <= i < |rest| && rest[i].key == key;
        assert args[i + 1].key == key;
      }
    }
  }

  /** The tables that some words leave behind are exactly those with keys that are not empty
      and values without a leading dash. */
  lemma TablesAreValid(m: map<string, string>)
    ensures ValidTable(m) <==>
              exists words :: ParseArgs(words).Some? && Store(map[], ParseArgs(words).value) == m
  {
    if ValidTable(m) {
      var args := SpellTable(m);
      TableRoundTrip(m, args);
      assert ParseArgs(PrintArgs(args)).Some?;
    }
    forall words | ParseArgs(words).Some? && Store(map[], ParseArgs(words).value) == m ensures ValidTable(m) {
      PrintOfParse(words);
      StoreIsValid(map[], ParseArgs(words).value);
    }
  }

  lemma {:induction false} StoreIsValid(start: map<string, string>, args: seq<Arg>)
    requires ValidTable(start) && AllValid(args)
    ensures ValidTable(Store(start, args))
    decreases |args|
  {
    if args != [] {
      StoreIsValid(start[args[0].key := ValueOf(args[0])], args[1..]);
    }
  }

  lemma {:induction false} SpelledIsStored(m: map<string, string>, start: map<string, string>, args: seq<Arg>)
    requires forall k | k in start :: k in m && m[k] == start[k]
    requires forall i | 0 <= i < |args| :: args[i].key in m && m[args[i].key] == ValueOf(args[i])
    requires forall k | k in m :: k in start || exists i :: 0 <= i < |args| && args[i].key == k
    ensures Store(start, args) == m
    decreases |args|
  {
    if args != [] {
      var next := start[args[0].key := ValueOf(args[0])];
      forall k | k in m ensures k in next || exists i :: 0 <= i < |args[1..]| && args[1..][i].key == k {
        if k !in next {
          var i :| 0 <= i < |args| && args[i].key == k;
          assert args[1..][i - 1].key == k;
        }
      }
      SpelledIsStored(m, next, args[1..]);
    }
  }

  // ------------------------------------------------------------------------- Env

  class Env {
    var m_program: string
    var m_args: map<string, string>

    constructor ()
      ensures m_args == map[]
    {
      m_program := "";
      m_args := map[];
    }

    /** Fills the table from argv[1..]; false at the first word out of place. */
    method Init(argv: seq<string>) returns (ok: bool)
      requires |argv| >= 1
      modifies this
      ensures m_program == argv[0]
      ensures ok <==> ParseArgs(argv[1..]).Some?
      ensures ok ==> m_args == Store(old(m_args), ParseArgs(argv[1..]).value)
      ensures !ok ==> exists k | FirstBad(argv[1..], k) :: StoredBefore(argv[1..], k, old(m_args), m_args)
    {
      m_program := argv[0];
      ghost var words := argv[1..];
      ScanIsParse(words, None, m_args);
      if ParseArgs(words).None? {
        ghost var k := ScanFails(words, m_args);
      }
      var now_key: Option<string> := None;
      for i := 1 to |argv|
        invariant m_program == argv[0]
        invariant Scan(argv[i..], now_key, m_args) == Scan(words, None, old(m_args))
      {
        assert argv[i..][1..] == argv[i + 1..];
        if argv[i] != "" && argv[i][0] == '-' {
          if |argv[i]| > 1 {
            if now_key.Some? {
              Add(now_key.value, "");
            }
            now_key := Some(argv[i][1..]);
          } else {
            return false;
          }
        } else {
          if now_key.Some? {
            Add(now_key.value, argv[i]);
            now_key := None;
          } else {
            return false;
          }
        }
      }
      if now_key.Some? {
        Add(now_key.value, "");
      }
      return true;
    }

    method Add(key: string, val: string)
      modifies this`m_args
      ensures m_args == old(m_args)[key := val]
    {
      m_args := m_args[key := val];
    }

    method Del(key: string)
      modifies this`m_args
      ensures m_args == old(m_args) - {key}
    {
      m_args := m_args - {key};
    }

    predicate Has(key: string)
      reads this
    {
      key in m_args
    }

    function Get(key: string, defaultValue: string): string
      reads this
    {
      if key in m_args then m_args[key] else defaultValue
    }
  }
}
