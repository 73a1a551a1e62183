/** YAML trees, as the loader and the casts see them.  Text parsing and emission are
    library code; modules that need them take them as parameters. */
module Yaml {
  import opened Wrappers

  datatype Node =
    | Null
    | Scalar(text: string)
    | Sequence(items: seq<Node>)
    | Mapping(entries: seq<Entry>)

  /** `key` is the key's scalar text. */
  datatype Entry = Entry(key: string, value: Node)

  /** The value of a mapping's first entry with a key. */
  function Lookup(entries: seq<Entry>, key: string): Option<Node> {
    if entries == [] then None
    else if entries[0].key == key then Some(entries[0].value)
    else Lookup(entries[1..], key)
  }

  lemma {:induction false} LookupIsFirst(entries: seq<Entry>, key: string)
    ensures Lookup(entries, key).None? <==> forall i | 0 <= i < |entries| :: entries[i].key != key
    ensures Lookup(entries, key).Some? ==>
              exists i :: 0 <= i < |entries| && entries[i] == Entry(key, Lookup(entries, key).value)
                          && forall j | 0 <= j < i :: entries[j].key != key
  {
    if entries != [] {
      var rest := entries[1..];
      LookupIsFirst(rest, key);
      assert forall i | 0 < i < |entries| :: entries[i] == rest[i - 1];
      if entries[0].key == key {
        assert entries[0] == Entry(key, Lookup(entries, key).value);
      } else if Lookup(rest, key).Some? {
        var i :| 0 <= i < |rest| && rest[i] == Entry(key, Lookup(rest, key).value)
                 && forall j | 0 <= j < i :: rest[j].key != key;
        assert entries[i + 1] == rest[i];
      }
    }
  }

  /** The number that decimal digits stand for. */
  function Number(s: string): int {
    if s == "" then 0 else 10 * Number(s[..|s| - 1]) + (s[|s| - 1] as int - '0' as int)
  }

  lemma {:induction false} DecimalIsNumber(n: nat)
    ensures Number(Decimal(n)) == n && Decimal(n) != "" && forall c | c in Decimal(n) :: '0' <= c <= '9'
    ensures Decimal(n)[0] == '0' ==> n == 0
  {
    if n < 10 {
      assert Decimal(n)[..0] == "";
    } else {
      DecimalIsNumber(n / 10);
      DecimalIsNumber(n % 10);
      assert Decimal(n)[..|Decimal(n)| - 1] == Decimal(n / 10);
      assert Decimal(n % 10) == [('0' as int + n % 10) as char];
    }
  }

  function Decimal(n: nat): string {
    if n < 10 then [('0' as int + n) as char] else Decimal(n / 10) + Decimal(n % 10)
  }

  /** node[0], ..., node[node.size() - 1]: a mapping has as many elements as entries, and
      those whose index is no key are undefined. */
  function Elements(n: Node): (es: seq<Option<Node>>)
    ensures n.Sequence? ==> |es| == |n.items| && forall i | 0 <= i < |es| :: es[i] == Some(n.items[i])
    ensures n.Mapping? ==> |es| == |n.entries|
    ensures !n.Sequence? && !n.Mapping? ==> es == []
  {
    match n
    case Sequence(items) => seq(|items|, i requires 0 <= i < |items| => Some(items[i]))
    case Mapping(entries) => seq(|entries|, i requires 0 <= i < |entries| => Lookup(entries, Decimal(i)))
    case _ => []
  }
}
