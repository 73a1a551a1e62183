/**
 The flattened form of a configuration file: src/config.cc's traversal of a YAML tree, and
 what its dotted paths mean.
 */
module ConfigPaths {
  import opened Wrappers
  import opened Yaml

  /** The characters the code allows in names.  The digit 9 is not one of them. */
  predicate IsNameChar(c: char) {
    'a' <= c <= 'z' || '0' <= c <= '8' || c == '.' || c == '_'
  }

  predicate ValidName(s: string) {
    forall c | c in s :: IsNameChar(c)
  }

  /** They are these. */
  lemma NameChars(s: string)
    ensures ValidName(s) <==>
              forall i | 0 <= i < |s| :: s[i] in "abcdefghijklm" + "nopqrstuvwxyz" + "._" + "012345678"
  {
    forall c: char ensures IsNameChar(c) <==> c in "abcdefghijklm" + "nopqrstuvwxyz" + "._" + "012345678" {
      FirstLetters(c);
      LastLetters(c);
      Digits(c);
    }
  }

  lemma FirstLetters(c: char)
    ensures 'a' <= c <= 'm' <==> c in "abcdefghijklm"
  {
    if 'a' <= c <= 'm' {
      assert "abcdefghijklm"[c as int - 'a' as int] == c;
    }
  }

  lemma LastLetters(c: char)
    ensures 'n' <= c <= 'z' <==> c in "nopqrstuvwxyz"
  {
    if 'n' <= c <= 'z' {
      assert "nopqrstuvwxyz"[c as int - 'n' as int] == c;
    }
  }

  lemma Digits(c: char)
    ensures '0' <= c <= '8' <==> c in "012345678"
  {
    if '0' <= c <= '8' {
      assert "012345678"[c as int - '0' as int] == c;
    }
  }

  function ToLower(s: string): string {
    seq(|s|, i requires 0 <= i < |s| => if 'A' <= s[i] <= 'Z' then s[i] - 'A' + 'a' else s[i])
  }

  type Item = (string, Node)

  // ------------------------------------------------------------- flattening

  function Join(prefix: string, key: string): string {
    if prefix == "" then key else prefix + "." + key
  }

  /** Every node of a tree with its dotted path, parents before children. */
  function Paths(prefix: string, node: Node): seq<Item>
    decreases node, 1
  {
    [(prefix, node)] + if node.Mapping? then PathsOf(prefix, node.entries) else []
  }

  function PathsOf(prefix: string, entries: seq<Entry>): seq<Item>
    decreases entries, 0
  {
    if entries == [] then []
    else Paths(Join(prefix, entries[0].key), entries[0].value) + PathsOf(prefix, entries[1..])
  }

  /** What ListAllMember appends: it stops at a path with a bad character. */
  function Listed(prefix: string, node: Node): seq<Item>
    decreases node, 1
  {
    if !ValidName(prefix) then []
    else [(prefix, node)] + if node.Mapping? then ListedOf(prefix, node.entries) else []
  }

  function ListedOf(prefix: string, entries: seq<Entry>): seq<Item>
    decreases entries, 0
  {
    if entries == [] then []
    else Listed(Join(prefix, entries[0].key), entries[0].value) + ListedOf(prefix, entries[1..])
  }

  function KeepValid(items: seq<Item>): seq<Item> {
    if items == [] then []
    else (if ValidName(items[0].0) then [items[0]] else []) + KeepValid(items[1..])
  }

  lemma KeepValidNothing()
    ensures KeepValid([]) == []
  {
  }

  lemma KeepValidFirst(items: seq<Item>)
    requires items != []
    ensures KeepValid(items) == (if ValidName(items[0].0) then [items[0]] else []) + KeepValid(items[1..])
  {
    hide ValidName;
  }

  lemma {:induction false} KeepValidConcat(a: seq<Item>, b: seq<Item>)
    ensures KeepValid(a + b) == KeepValid(a) + KeepValid(b)
  {
    hide ValidName, KeepValid;
    if a == [] {
      assert KeepValid(a) == [] by { KeepValidNothing(); }
      assert a + b == b;
    } else {
      KeepValidConcat(a[1..], b);
      assert (a + b)[0] == a[0] && (a + b)[1..] == a[1..] + b;
      KeepValidFirst(a + b);
      KeepValidFirst(a);
    }
  }

  /** A bad character in a path stays in every path below it. */
  lemma {:induction false} BadStaysBad(prefix: string, node: Node)
    requires !ValidName(prefix)
    ensures KeepValid(Paths(prefix, node)) == []
    decreases node, 1
  {
    assert Paths(prefix, node)[1..] == if node.Mapping? then PathsOf(prefix, node.entries) else [];
    if node.Mapping? {
      BadStaysBadOf(prefix, node.entries);
    }
  }

  lemma {:induction false} BadStaysBadOf(prefix: string, entries: seq<Entry>)
    requires !ValidName(prefix)
    ensures KeepValid(PathsOf(prefix, entries)) == []
    decreases entries, 0
  {
    if entries != [] {
      var child := Join(prefix, entries[0].key);
      assert forall c | c in prefix :: c in child;
      BadStaysBad(child, entries[0].value);
      BadStaysBadOf(prefix, entries[1..]);
      KeepValidConcat(Paths(child, entries[0].value), PathsOf(prefix, entries[1..]));
    }
  }

  /** Pruning loses no valid path: the pruned traversal is the full one, filtered. */
  lemma {:induction false} PruningIsFiltering(prefix: string, node: Node)
    ensures Listed(prefix, node) == KeepValid(Paths(prefix, node))
    decreases node, 1
  {
    if !ValidName(prefix) {
      BadStaysBad(prefix, node);
    } else {
      assert Paths(prefix, node)[1..] == if node.Mapping? then PathsOf(prefix, node.entries) else [];
      if node.Mapping? {
        PruningIsFilteringOf(prefix, node.entries);
      }
    }
  }

  lemma {:induction false} PruningIsFilteringOf(prefix: string, entries: seq<Entry>)
    ensures ListedOf(prefix, entries) == KeepValid(PathsOf(prefix, entries))
    decreases entries, 0
  {
    if entries != [] {
      var child := Join(prefix, entries[0].key);
      PruningIsFiltering(child, entries[0].value);
      PruningIsFilteringOf(prefix, entries[1..]);
      KeepValidConcat(Paths(child, entries[0].value), PathsOf(prefix, entries[1..]));
    }
  }

  /** `item` is an entry of the mapping `parent`. */
  predicate ChildOf(item: Item, parent: Item) {
    parent.1.Mapping? &&
    exists e | e in parent.1.entries :: item == (Join(parent.0, e.key), e.value)
  }

  predicate ParentBefore(items: seq<Item>, k: nat)
    requires k < |items|
  {
    exists j | 0 <= j < k :: ChildOf(items[k], items[j])
  }

  lemma {:induction false} ParentsListedOf(prefix: string, entries: seq<Entry>, k: nat)
    requires k < |ListedOf(prefix, entries)|
    ensures var items := ListedOf(prefix, entries);
            ParentBefore(items, k) || exists e | e in entries :: items[k] == (Join(prefix, e.key), e.value)
    decreases entries, 0
  {
    var first := Listed(Join(prefix, entries[0].key), entries[0].value);
    var rest := ListedOf(prefix, entries[1..]);
    var items := ListedOf(prefix, entries);
    assert items == first + rest;
    if k < |first| {
      if k == 0 {
        assert items[k] == (Join(prefix, entries[0].key), entries[0].value);
      } else {
        ParentsListed(Join(prefix, entries[0].key), entries[0].value, k);
        var j :| 0 <= j < k && ChildOf(first[k], first[j]);
        assert ChildOf(items[k], items[j]);
      }
    } else {
      ParentsListedOf(prefix, entries[1..], k - |first|);
      if ParentBefore(rest, k - |first|) {
        var j :| 0 <= j < k - |first| && ChildOf(rest[k - |first|], rest[j]);
        assert ChildOf(items[k], items[|first| + j]);
      }
    }
  }

  /** Every listed node but the first comes after the mapping it is an entry of. */
  lemma {:induction false} ParentsListed(prefix: string, node: Node, k: nat)
    requires 0 < k < |Listed(prefix, node)|
    ensures ParentBefore(Listed(prefix, node), k)
    decreases node, 1
  {
    var items := Listed(prefix, node);
    var below := ListedOf(prefix, node.entries);
    assert items[1..] == below;
    ParentsListedOf(prefix, node.entries, k - 1);
    if ParentBefore(below, k - 1) {
      var j :| 0 <= j < k - 1 && ChildOf(below[k - 1], below[j]);
      assert ChildOf(items[k], items[j + 1]);
    } else {
      assert ChildOf(items[k], items[0]);
    }
  }

  /** The loader's lower-casing changes no listed path. */
  lemma ListedPathsAreLower(prefix: string, node: Node, k: nat)
    requires k < |Listed(prefix, node)|
    ensures ValidName(Listed(prefix, node)[k].0)
    ensures ToLower(Listed(prefix, node)[k].0) == Listed(prefix, node)[k].0
  {
    PruningIsFiltering(prefix, node);
    KeptAreValid(Paths(prefix, node));
    var s := Listed(prefix, node)[k].0;
    assert ValidName(s);
    assert forall i | 0 <= i < |s| :: s[i] in s;
  }

  lemma {:induction false} KeptAreValid(items: seq<Item>)
    ensures forall item | item in KeepValid(items) :: ValidName(item.0)
  {
    if items != [] {
      KeptAreValid(items[1..]);
    }
  }

  // ---------------------------------------------------------- what a path means

  /** A name cut at its dots. */
  function Cut(p: string): (ks: seq<string>)
    ensures ks != []
  {
    var i := FirstDot(p);
    if i == |p| then [p] else [p[..i]] + Cut(p[i + 1..])
  }

  function FirstDot(p: string): (i: nat)
    ensures i <= |p| && (forall j | 0 <= j < i :: p[j] != '.') && (i < |p| ==> p[i] == '.')
  {
    if p == "" || p[0] == '.' then 0 else 1 + FirstDot(p[1..])
  }

  function Glue(ks: seq<string>): string
    requires ks != []
  {
    if |ks| == 1 then ks[0] else ks[0] + "." + Glue(ks[1..])
  }

  lemma {:induction false} CutThenGlue(p: string)
    ensures Glue(Cut(p)) == p
    decreases |p|
  {
    var i := FirstDot(p);
    if i < |p| {
      CutThenGlue(p[i + 1..]);
      assert Cut(p)[1..] == Cut(p[i + 1..]);
      assert p == p[..i] + "." + p[i + 1..];
    }
  }

  lemma {:induction false} CutEnd(p: string, k: string)
    requires '.' !in k
    ensures Cut(p + "." + k) == Cut(p) + [k]
    decreases |p|
  {
    var i := FirstDot(p);
    var q := p + "." + k;
    assert q[i] == '.' && FirstDot(q) == i;
    assert q[..i] == p[..i];
    if i == |p| {
      assert q[i + 1..] == k && p[..i] == p;
      CutPlain(k);
    } else {
      assert q[i + 1..] == p[i + 1..] + "." + k;
      CutEnd(p[i + 1..], k);
    }
  }

  lemma CutPlain(k: string)
    requires '.' !in k
    ensures Cut(k) == [k]
  {
    assert FirstDot(k) == |k|;
  }

  predicate PlainKey(k: string) {
    k != "" && '.' !in k
  }

  /** No key of the tree is empty or holds a dot. */
  predicate PlainTree(node: Node) {
    node.Mapping? ==> PlainEntries(node.entries)
  }

  predicate PlainEntries(entries: seq<Entry>) {
    forall i | 0 <= i < |entries| :: PlainKey(entries[i].key) && PlainTree(entries[i].value)
  }

  /** The nodes that following a list of keys leads to, in document order; a mapping may hold a
      key twice. */
  function Reached(node: Node, keys: seq<string>): seq<Node>
    decreases node, 1
  {
    if keys == [] then [node]
    else if node.Mapping? then ReachedIn(node.entries, keys) else []
  }

  function ReachedIn(entries: seq<Entry>, keys: seq<string>): seq<Node>
    requires keys != []
    decreases entries, 0
  {
    if entries == [] then []
    else (if entries[0].key == keys[0] then Reached(entries[0].value, keys[1..]) else []) + ReachedIn(entries[1..], keys)
  }

  /** The nodes listed with a path. */
  function NodesAt(items: seq<Item>, p: string): seq<Node> {
    if items == [] then [] else (if items[0].0 == p then [items[0].1] else []) + NodesAt(items[1..], p)
  }

  lemma NodesAtNothing(p: string)
    ensures NodesAt([], p) == []
  {
  }

  lemma NodesAtFirst(items: seq<Item>, p: string)
    requires items != []
    ensures NodesAt(items, p) == (if items[0].0 == p then [items[0].1] else []) + NodesAt(items[1..], p)
  {
  }

  lemma {:induction false} NodesAtConcat(a: seq<Item>, b: seq<Item>, p: string)
    ensures NodesAt(a + b, p) == NodesAt(a, p) + NodesAt(b, p)
  {
    hide NodesAt;
    if a == [] {
      assert a + b == b;
      NodesAtNothing(p);
    } else {
      NodesAtConcat(a[1..], b, p);
      assert (a + b)[0] == a[0] && (a + b)[1..] == a[1..] + b;
      NodesAtFirst(a + b, p);
      NodesAtFirst(a, p);
    }
  }

  lemma {:induction false} NoneAt(items: seq<Item>, p: string)
    requires forall x | x in items :: x.0 != p
    ensures NodesAt(items, p) == []
  {
    if items != [] {
      NoneAt(items[1..], p);
    }
  }

  /** `prefix` is where the keys `ks` lead to. */
  predicate Leads(prefix: string, ks: seq<string>) {
    if prefix == "" then ks == [] else ks == Cut(prefix)
  }

  lemma LeadsOn(prefix: string, ks: seq<string>, key: string)
    requires Leads(prefix, ks) && PlainKey(key)
    ensures Join(prefix, key) != "" && Leads(Join(prefix, key), ks + [key])
  {
    if prefix == "" {
      CutPlain(key);
    } else {
      CutEnd(prefix, key);
    }
  }

  /** All paths below a prefix go on from it. */
  lemma {:induction false} PathsGoOn(prefix: string, node: Node)
    requires prefix != "" && PlainTree(node)
    ensures forall x | x in Paths(prefix, node) :: x.0 != "" && Cut(prefix) <= Cut(x.0)
    decreases node, 1
  {
    hide Cut;
    if node.Mapping? {
      PathsGoOnOf(prefix, node.entries);
    }
  }

  lemma {:induction false} PathsGoOnOf(prefix: string, entries: seq<Entry>)
    requires prefix != "" && PlainEntries(entries)
    ensures forall x | x in PathsOf(prefix, entries) :: x.0 != "" && Cut(prefix) < Cut(x.0)
    decreases entries, 0
  {
    hide Cut;
    if entries != [] {
      LeadsOn(prefix, Cut(prefix), entries[0].key);
      PathsGoOn(Join(prefix, entries[0].key), entries[0].value);
      PathsGoOnOf(prefix, entries[1..]);
    }
  }

  lemma CutIsInjective(p: string, q: string)
    requires Cut(p) == Cut(q)
    ensures p == q
  {
    CutThenGlue(p);
    CutThenGlue(q);
  }

  lemma {:induction false} PathsFollow(prefix: string, ks: seq<string>, node: Node, p: string, rest: seq<string>)
    requires PlainTree(node) && Leads(prefix, ks) && p != "" && Cut(p) == ks + rest
    ensures NodesAt(Paths(prefix, node), p) == Reached(node, rest)
    decreases node, 1
  {
    hide Cut;
    var below := if node.Mapping? then PathsOf(prefix, node.entries) else [];
    var own := [(prefix, node)];
    assert own[1..] == [];
    assert NodesAt(own, p) == if prefix == p then [node] else [];
    NodesAtConcat(own, below, p);
    if rest == [] {
      assert ks + rest == ks;
      CutIsInjective(p, prefix);
      if node.Mapping? {
        PathsGoOnOf(prefix, node.entries);
        NoneAt(below, p);
      }
    } else {
      assert prefix == p ==> ks == ks + rest;
      if node.Mapping? {
        PathsFollowOf(prefix, ks, node.entries, p, rest);
      }
    }
  }

  lemma {:induction false} PathsFollowOf(prefix: string, ks: seq<string>, entries: seq<Entry>, p: string, rest: seq<string>)
    requires PlainEntries(entries) && Leads(prefix, ks) && p != "" && rest != [] && Cut(p) == ks + rest
    ensures NodesAt(PathsOf(prefix, entries), p) == ReachedIn(entries, rest)
    decreases entries, 0
  {
    hide Cut;
    if entries != [] {
      var child := Join(prefix, entries[0].key);
      var first := Paths(child, entries[0].value);
      LeadsOn(prefix, ks, entries[0].key);
      if entries[0].key == rest[0] {
        assert ks + rest == (ks + [rest[0]]) + rest[1..];
        PathsFollow(child, ks + [rest[0]], entries[0].value, p, rest[1..]);
      } else {
        PathsGoOn(child, entries[0].value);
        assert (ks + [entries[0].key])[|ks|] != (ks + rest)[|ks|];
        NoneAt(first, p);
      }
      PathsFollowOf(prefix, ks, entries[1..], p, rest);
      NodesAtConcat(first, PathsOf(prefix, entries[1..]), p);
    }
  }

  /** In a tree of plain keys the nodes listed at a path are those that the keys between its
      dots lead to from the root, in the same order. */
  lemma PathsFollowKeys(root: Node, p: string)
    requires PlainTree(root) && p != ""
    ensures NodesAt(Paths("", root), p) == Reached(root, Cut(p))
  {
    assert [] + Cut(p) == Cut(p);
    PathsFollow("", [], root, p, Cut(p));
  }

  /** Following keys: one entry of a mapping for each. */
  predicate Follows(node: Node, keys: seq<string>, n: Node)
    decreases |keys|
  {
    if keys == [] then n == node
    else node.Mapping? && exists i | 0 <= i < |node.entries| ::
      node.entries[i].key == keys[0] && Follows(node.entries[i].value, keys[1..], n)
  }

  lemma {:induction false} ReachedExactly(node: Node, keys: seq<string>, n: Node)
    ensures n in Reached(node, keys) <==> Follows(node, keys, n)
    decreases node, 1
  {
    if keys != [] && node.Mapping? {
      ReachedInExactly(node.entries, keys, n);
    }
  }

  lemma {:induction false} ReachedInExactly(entries: seq<Entry>, keys: seq<string>, n: Node)
    requires keys != []
    ensures n in ReachedIn(entries, keys) <==>
              exists i | 0 <= i < |entries| :: entries[i].key == keys[0] && Follows(entries[i].value, keys[1..], n)
    decreases entries, 0
  {
    if entries != [] {
      var rest := entries[1..];
      ReachedExactly(entries[0].value, keys[1..], n);
      ReachedInExactly(rest, keys, n);
      assert forall i | 0 <= i < |rest| :: rest[i] == entries[i + 1];
      assert forall i | 0 < i < |entries| :: entries[i] == rest[i - 1];
    }
  }

  lemma {:induction false} InNodesAt(items: seq<Item>, p: string, n: Node)
    ensures n in NodesAt(items, p) <==> (p, n) in items
  {
    if items != [] {
      InNodesAt(items[1..], p, n);
    }
  }

  /** What a path means: a node is listed at `p` exactly when the keys between the dots of `p`
      lead to it. */
  lemma PathMeaning(root: Node, p: string, n: Node)
    requires PlainTree(root) && p != ""
    ensures (p, n) in Paths("", root) <==> Follows(root, Cut(p), n)
  {
    PathsFollowKeys(root, p);
    InNodesAt(Paths("", root), p, n);
    ReachedExactly(root, Cut(p), n);
  }
}
