/**
 Configuration variables, their registry and the YAML loader: src/config.h and
 src/config.cc, single threaded.
 */
module ConfigLoad {
  import opened Wrappers
  import opened Yaml
  import opened ConfigPaths

  // --------------------------------------------------------------- loading

  /** The text a variable is given: a scalar's own, else the emitted YAML. */
  function TextOf(node: Node, emit: Node -> string): string {
    if node.Scalar? then node.text else emit(node)
  }

  /** The value of the last item at path `name` whose text converts, or `old`. */
  function Latest<V>(items: seq<Item>, name: string, cast: string -> Option<V>, emit: Node -> string, before: V): V
    decreases |items|
  {
    if items == [] then before
    else
      var (path, node) := items[|items| - 1];
      if path == name && cast(TextOf(node, emit)).Some? then cast(TextOf(node, emit)).value
      else Latest(items[..|items| - 1], name, cast, emit, before)
  }

  lemma {:induction false} KeepValidEnd(items: seq<Item>, item: Item)
    ensures KeepValid(items + [item]) == KeepValid(items) + if ValidName(item.0) then [item] else []
  {
    KeepValidConcat(items, [item]);
  }

  lemma LatestEnd<V>(items: seq<Item>, item: Item, name: string, cast: string -> Option<V>,
                     emit: Node -> string, before: V)
    ensures Latest(items + [item], name, cast, emit, before)
         == if Hits(item, name, cast, emit) then cast(TextOf(item.1, emit)).value
            else Latest(items, name, cast, emit, before)
  {
    assert (items + [item])[..|items|] == items;
  }

  /** For a valid name the filter does not matter. */
  lemma {:induction false} LatestOfValid<V>(items: seq<Item>, name: string, cast: string -> Option<V>,
                                            emit: Node -> string, before: V)
    requires ValidName(name)
    ensures Latest(KeepValid(items), name, cast, emit, before) == Latest(items, name, cast, emit, before)
    decreases |items|
  {
    if items != [] {
      var init, last := items[..|items| - 1], items[|items| - 1];
      assert items == init + [last];
      KeepValidEnd(init, last);
      LatestOfValid(init, name, cast, emit, before);
      LatestEnd(init, last, name, cast, emit, before);
      LatestEnd(KeepValid(init), last, name, cast, emit, before);
      assert KeepValid(init) + [] == KeepValid(init);
    }
  }

  /** `Latest` without recursion: the last item that hits decides. */
  lemma {:induction false} LatestIsLastHit<V>(items: seq<Item>, k: nat, name: string, cast: string -> Option<V>,
                                              emit: Node -> string, before: V)
    requires k < |items| && Hits(items[k], name, cast, emit)
    requires forall m | k < m < |items| :: !Hits(items[m], name, cast, emit)
    ensures Latest(items, name, cast, emit, before) == cast(TextOf(items[k].1, emit)).value
    decreases |items|
  {
    if k < |items| - 1 {
      LatestIsLastHit(items[..|items| - 1], k, name, cast, emit, before);
    }
  }

  /** Without a hit the variable keeps its value. */
  lemma {:induction false} LatestWithoutHit<V>(items: seq<Item>, name: string, cast: string -> Option<V>,
                                               emit: Node -> string, before: V)
    requires forall m | 0 <= m < |items| :: !Hits(items[m], name, cast, emit)
    ensures Latest(items, name, cast, emit, before) == before
    decreases |items|
  {
    if items != [] {
      LatestWithoutHit(items[..|items| - 1], name, cast, emit, before);
    }
  }

  predicate Hits<V>(item: Item, name: string, cast: string -> Option<V>, emit: Node -> string) {
    item.0 == name && cast(TextOf(item.1, emit)).Some?
  }

  /** Of nodes read in turn the last one that converts gives the value: a scalar by its own
      text, another node by its emission. */
  ghost predicate LeftBy<V>(ns: seq<Node>, cast: string -> Option<V>, emit: Node -> string, before: V, after: V) {
    if exists k :: 0 <= k < |ns| && cast(if ns[k].Scalar? then ns[k].text else emit(ns[k])).Some?
    then exists k :: 0 <= k < |ns| && cast(if ns[k].Scalar? then ns[k].text else emit(ns[k])) == Some(after) &&
           forall m | k < m < |ns| :: cast(if ns[m].Scalar? then ns[m].text else emit(ns[m])).None?
    else after == before
  }

  lemma LeftByEnd<V>(ns: seq<Node>, n: Node, cast: string -> Option<V>, emit: Node -> string, before: V, after: V)
    requires cast(TextOf(n, emit)).None? ==> LeftBy(ns, cast, emit, before, after)
    requires cast(TextOf(n, emit)).Some? ==> after == cast(TextOf(n, emit)).value
    ensures LeftBy(ns + [n], cast, emit, before, after)
  {
    var all := ns + [n];
    assert all[|ns|] == n;
    assert forall k | 0 <= k < |ns| :: all[k] == ns[k];
  }

  lemma {:induction false} LatestIsLeft<V>(items: seq<Item>, name: string, cast: string -> Option<V>,
                                                 emit: Node -> string, before: V)
    ensures LeftBy(NodesAt(items, name), cast, emit, before, Latest(items, name, cast, emit, before))
    decreases |items|
  {
    if items != [] {
      var init, last := items[..|items| - 1], items[|items| - 1];
      hide LeftBy, NodesAt, TextOf;
      LatestIsLeft(init, name, cast, emit, before);
      NodesAtConcat(init, [last], name);
      NodesAtFirst([last], name);
      NodesAtNothing(name);
      assert items == init + [last] && [last][1..] == [];
      if last.0 == name {
        LeftByEnd(NodesAt(init, name), last.1, cast, emit, before, Latest(items, name, cast, emit, before));
        assert NodesAt(items, name) == NodesAt(init, name) + [last.1];
      } else {
        assert NodesAt(items, name) == NodesAt(init, name);
      }
    }
  }

  /** In a tree of plain keys a registered name is left the value of the last node that
      converts among those its keys lead to. */
  lemma LatestFollowsKeys<V>(root: Node, name: string, cast: string -> Option<V>, emit: Node -> string, before: V)
    requires PlainTree(root) && name != ""
    ensures LeftBy(Reached(root, Cut(name)), cast, emit, before, Latest(Paths("", root), name, cast, emit, before))
  {
    PathsFollowKeys(root, name);
    LatestIsLeft(Paths("", root), name, cast, emit, before);
  }

  // --------------------------------------------------------------- variables

  /** One call of a listener. */
  datatype Note<V> = Note(id: nat, was: V, next: V)

  function Notes<V>(ids: seq<nat>, was: V, next: V): (r: seq<Note<V>>)
    ensures |r| == |ids|
  {
    seq(|ids|, i requires 0 <= i < |ids| => Note(ids[i], was, next))
  }

  /** `kind` stands for the variable's type T, `cast` for its FromStr (None: it throws), and
      `m_notes` records the calls of its listeners, registered under the ids `m_cbs`. */
  class ConfigVar<V(==)> {
    const m_name: string
    const kind: nat
    const cast: string -> Option<V>
    var m_val: V
    var m_cbs: seq<nat>
    var m_notes: seq<Note<V>>

    constructor (name: string, kind: nat, cast: string -> Option<V>, default: V)
      ensures m_name == ToLower(name) && this.kind == kind && this.cast == cast
      ensures m_val == default && m_cbs == [] && m_notes == []
    {
      m_name := ToLower(name);
      this.kind := kind;
      this.cast := cast;
      m_val := default;
      m_cbs := [];
      m_notes := [];
    }

    /** Nothing happens for an equal value; else each listener is told once, then it is stored. */
    method SetValue(v: V)
      modifies this
      ensures m_val == v && m_cbs == old(m_cbs)
      ensures m_notes == old(m_notes) + if v == old(m_val) then [] else Notes(m_cbs, old(m_val), v)
    {
      if v == m_val {
        return;
      }
      var i := 0;
      while i < |m_cbs|
        invariant 0 <= i <= |m_cbs|
        invariant m_val == old(m_val) && m_cbs == old(m_cbs)
        invariant m_notes == old(m_notes) + Notes(m_cbs, m_val, v)[..i]
      {
        m_notes := m_notes + [Note(m_cbs[i], m_val, v)];
        i := i + 1;
      }
      m_val := v;
    }

    /** A text that does not convert changes nothing.  The result is false in every case. */
    method FromString(text: string) returns (r: bool)
      modifies this
      ensures !r
      ensures cast(text).Some? ==>
                m_val == cast(text).value &&
                m_notes == old(m_notes) + if m_val == old(m_val) then [] else Notes(m_cbs, old(m_val), m_val)
      ensures cast(text).None? ==> m_val == old(m_val) && m_notes == old(m_notes)
      ensures m_cbs == old(m_cbs)
    {
      var v := cast(text);
      if v.Some? {
        SetValue(v.value);
      }
      r := false;
    }
  }

  // ---------------------------------------------------------------- registry

  datatype Found<V(==)> = Existing(v: ConfigVar<V>) | OtherType | Created(v: ConfigVar<V>) | InvalidName

  class NodeList {
    var items: seq<Item>

    constructor ()
      ensures items == []
    {
      items := [];
    }
  }

  lemma ListedOfStep(prefix: string, entries: seq<Entry>, i: nat)
    requires i < |entries|
    ensures ListedOf(prefix, entries[i..])
         == Listed(Join(prefix, entries[i].key), entries[i].value) + ListedOf(prefix, entries[i + 1..])
  {
    assert entries[i..][1..] == entries[i + 1..];
  }

  lemma ListedUnfolds(prefix: string, node: Node)
    ensures !ValidName(prefix) ==> Listed(prefix, node) == []
    ensures ValidName(prefix) ==>
              Listed(prefix, node) == [(prefix, node)] + if node.Mapping? then ListedOf(prefix, node.entries[0..]) else []
  {
    assert node.Mapping? ==> node.entries[0..] == node.entries;
  }

  /** Appends to `output`, passed by reference down the recursion. */
  method ListAllMember(prefix: string, node: Node, output: NodeList)
    modifies output
    ensures output.items == old(output.items) + Listed(prefix, node)
    decreases node
  {
    hide Listed, ListedOf;
    ListedUnfolds(prefix, node);
    if !ValidName(prefix) {
      return;
    }
    output.items := output.items + [(prefix, node)];
    if node.Mapping? {
      ListedOfNil(prefix);
      var i := 0;
      while i < |node.entries|
        invariant 0 <= i <= |node.entries|
        invariant output.items + ListedOf(prefix, node.entries[i..]) == old(output.items) + Listed(prefix, node)
      {
        var e := node.entries[i];
        ListedOfStep(prefix, node.entries, i);
        ListAllMember(if prefix == "" then e.key else prefix + "." + e.key, e.value, output);
        i := i + 1;
      }
      assert node.entries[i..] == [];
    }
  }

  lemma ListedOfNil(prefix: string)
    ensures ListedOf(prefix, []) == []
  {
  }

  class Config<V(==)> {
    var datas: map<string, ConfigVar<V>>

    /** Names are valid and each has a variable of its own. */
    ghost predicate Valid()
      reads this
    {
      && (forall n | n in datas :: ValidName(n))
      && (forall n, m | n in datas && m in datas && n != m :: datas[n] != datas[m])
    }

    constructor ()
      ensures Valid() && datas == map[]
    {
      datas := map[];
    }

    /** Lookup with a default value: an existing variable is returned as it is, or refused when
        its type differs; a new one needs a valid name. */
    method Lookup(name: string, kind: nat, cast: string -> Option<V>, default: V) returns (r: Found<V>)
      requires Valid()
      modifies this
      ensures Valid()
      ensures name in old(datas) ==>
                datas == old(datas) && r == if datas[name].kind == kind then Existing(datas[name]) else OtherType
      ensures name !in old(datas) && !ValidName(name) ==> datas == old(datas) && r == InvalidName
      ensures name !in old(datas) && ValidName(name) ==>
                r.Created? && fresh(r.v) && datas == old(datas)[name := r.v] &&
                r.v.kind == kind && r.v.m_val == default && r.v.m_name == name && r.v.cast == cast
    {
      if name in datas {
        if datas[name].kind == kind {
          return Existing(datas[name]);
        }
        return OtherType;
      }
      if !ValidName(name) {
        return InvalidName;
      }
      var v := new ConfigVar(name, kind, cast, default);
      assert forall i | 0 <= i < |name| :: name[i] in name;
      assert ToLower(name) == name;
      datas := datas[name := v];
      r := Created(v);
    }

    method LookupBase(name: string) returns (r: Option<ConfigVar<V>>)
      ensures r == if name in datas then Some(datas[name]) else None
    {
      if name in datas {
        return Some(datas[name]);
      }
      return None;
    }

    /** Each registered non-empty name ends with the value of the last node at that path, in
        pre-order, whose text converts; the registry itself does not change. */
    method LoadFromYaml(root: Node, emit: Node -> string)
      requires Valid()
      modifies datas.Values
      ensures Valid() && datas == old(datas)
      ensures forall n | n in datas && n != "" ::
                datas[n].m_val == Latest(Paths("", root), n, datas[n].cast, emit, old(datas[n].m_val))
      ensures "" in datas ==> datas[""].m_val == old(datas[""].m_val)
      ensures PlainTree(root) ==> forall n | n in datas && n != "" ::
                LeftBy(Reached(root, Cut(n)), datas[n].cast, emit, old(datas[n].m_val), datas[n].m_val)
    {
      hide Latest, Listed, Paths, LeftBy, Reached, Cut, PlainTree;
      var all := new NodeList();
      ListAllMember("", root, all);
      var items := all.items;
      assert items == Listed("", root);
      var i := 0;
      forall n | n in datas
        ensures Latest([], n, datas[n].cast, emit, datas[n].m_val) == datas[n].m_val
      {
        LatestWithoutHit([], n, datas[n].cast, emit, datas[n].m_val);
      }
      while i < |items|
        invariant 0 <= i <= |items|
        invariant datas == old(datas)
        invariant forall n | n in datas && n != "" ::
                    datas[n].m_val == Latest(items[..i], n, datas[n].cast, emit, old(datas[n].m_val))
        invariant "" in datas ==> datas[""].m_val == old(datas[""].m_val)
      {
        var key := items[i].0;
        assert items[..i + 1] == items[..i] + [items[i]];
        forall n | n in datas
          ensures Latest(items[..i + 1], n, datas[n].cast, emit, old(datas[n].m_val))
               == if Hits(items[i], n, datas[n].cast, emit) then datas[n].cast(TextOf(items[i].1, emit)).value
                  else Latest(items[..i], n, datas[n].cast, emit, old(datas[n].m_val))
        {
          LatestEnd(items[..i], items[i], n, datas[n].cast, emit, old(datas[n].m_val));
        }
        if key != "" {
          ListedPathsAreLower("", root, i);
          key := ToLower(key);
          var v := LookupBase(key);
          if v.Some? {
            var r := v.value.FromString(TextOf(items[i].1, emit));
          }
        }
        i := i + 1;
      }
      assert items[..i] == items;
      PruningIsFiltering("", root);
      forall n | n in datas
        ensures Latest(items, n, datas[n].cast, emit, old(datas[n].m_val))
             == Latest(Paths("", root), n, datas[n].cast, emit, old(datas[n].m_val))
      {
        LatestOfValid(Paths("", root), n, datas[n].cast, emit, old(datas[n].m_val));
      }
      forall n | n in datas && n != "" && PlainTree(root)
        ensures LeftBy(Reached(root, Cut(n)), datas[n].cast, emit, old(datas[n].m_val), datas[n].m_val)
      {
        LatestFollowsKeys(root, n, datas[n].cast, emit, old(datas[n].m_val));
      }
    }
  }
}
