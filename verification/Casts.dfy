/**
 The container specialisations of LexicalCast in src/config.h, for every nesting of
 vector, list, set and string-keyed map over one leaf type.

 A text is of type T.  YAML's Load and emission and the leaf's own casts are a `Lib`;
 `Lawful` is what is assumed of them.
 */
module Casts {
  import opened Wrappers
  import opened Yaml
  import opened Ordered

  datatype Type = Leaf | Container(kind: Kind, elem: Type) | StringMap(elem: Type)

  datatype Kind = Vector | List | Set

  /** Sets and maps are held in iteration order. */
  datatype Value<L> = One(x: L) | Many(items: seq<Value<L>>) | Fields(fields: seq<Field<L>>)

  datatype Field<L> = Field(key: string, value: Value<L>)

  /** `nothing` is the emission of an undefined node, `less` orders set elements, and `value`
      is None where the leaf cast throws. */
  datatype Lib<!T, !L> = Lib(load: T -> Node, emit: Node -> T, nothing: T, text: L -> T, value: T -> Option<L>,
                             less: (Value<L>, Value<L>) -> bool)

  /** Load and emission are inverse on trees, and a leaf round-trips as one scalar, also
      after a detour through YAML. */
  ghost predicate Lawful<T, L(!new)>(lib: Lib<T, L>) {
    && (forall n: Node :: lib.load(lib.emit(n)) == n)
    && (forall x: L :: lib.load(lib.text(x)).Scalar? && lib.value(lib.text(x)) == Some(x))
    && (forall x: L :: lib.value(lib.emit(lib.load(lib.text(x)))) == Some(x))
    && StrictOrder(lib.less)
  }

  predicate KeyLess<L>(a: Field<L>, b: Field<L>) {
    StrLess(a.key, b.key)
  }

  /** The values of a type. */
  ghost predicate Has<T, L>(lib: Lib<T, L>, ty: Type, v: Value<L>)
    decreases ty
  {
    match ty
    case Leaf => v.One?
    case StringMap(elem) =>
      v.Fields? && Sorted(v.fields, KeyLess) && forall i | 0 <= i < |v.fields| :: Has(lib, elem, v.fields[i].value)
    case Container(kind, elem) =>
      v.Many? && (kind.Set? ==> Sorted(v.items, lib.less)) && forall i | 0 <= i < |v.items| :: Has(lib, elem, v.items[i])
  }

  // ------------------------------------------------------------ specification

  /** node[key] = value: replaces the entry of that key or appends one. */
  function SetKey(entries: seq<Entry>, key: string, value: Node): seq<Entry> {
    if entries == [] then [Entry(key, value)]
    else if entries[0].key == key then [Entry(key, value)] + entries[1..]
    else [entries[0]] + SetKey(entries[1..], key, value)
  }

  function Print<T, L>(lib: Lib<T, L>, ty: Type, v: Value<L>): T
    requires Has(lib, ty, v)
    decreases ty, 1
  {
    match ty
    case Leaf => lib.text(v.x)
    case StringMap(elem) => lib.emit(Mapping(Entries(lib, elem, v.fields)))
    case Container(_, elem) => lib.emit(Sequence(Nodes(lib, elem, v.items)))
  }

  function Nodes<T, L>(lib: Lib<T, L>, ty: Type, vs: seq<Value<L>>): (ns: seq<Node>)
    requires forall i | 0 <= i < |vs| :: Has(lib, ty, vs[i])
    ensures |ns| == |vs|
    decreases ty, 2, |vs|
  {
    if vs == [] then []
    else Nodes(lib, ty, vs[..|vs| - 1]) + [lib.load(Print(lib, ty, vs[|vs| - 1]))]
  }

  function Entries<T, L>(lib: Lib<T, L>, ty: Type, fs: seq<Field<L>>): seq<Entry>
    requires forall i | 0 <= i < |fs| :: Has(lib, ty, fs[i].value)
    decreases ty, 2, |fs|
  {
    if fs == [] then []
    else
      SetKey(Entries(lib, ty, fs[..|fs| - 1]), fs[|fs| - 1].key, lib.load(Print(lib, ty, fs[|fs| - 1].value)))
  }

  /** What the emission of an element gives. */
  function TextAt<T, L>(lib: Lib<T, L>, e: Option<Node>): T {
    if e.Some? then lib.emit(e.value) else lib.nothing
  }

  /** Entries that a map cast reads. */
  function EntriesOf(n: Node): Option<seq<Entry>> {
    match n
    case Mapping(entries) => Some(entries)
    case Sequence(items) => if items == [] then Some([]) else None
    case _ => Some([])
  }

  function Parse<T, L>(lib: Lib<T, L>, ty: Type, text: T): Option<Value<L>>
    decreases ty, 1
  {
    match ty
    case Leaf => if lib.value(text).Some? then Some(One(lib.value(text).value)) else None
    case StringMap(elem) =>
      var entries := EntriesOf(lib.load(text));
      if entries.None? then None
      else
        var fs := ParseFields(lib, elem, entries.value);
        if fs.None? then None else Some(Fields(InsertAll(fs.value, KeyLess)))
    case Container(kind, elem) =>
      var vs := ParseAll(lib, elem, Elements(lib.load(text)));
      if vs.None? then None
      else Some(Many(if kind.Set? then InsertAll(vs.value, lib.less) else vs.value))
  }

  function ParseAll<T, L>(lib: Lib<T, L>, ty: Type, ns: seq<Option<Node>>): (r: Option<seq<Value<L>>>)
    ensures r.Some? ==> |r.value| == |ns|
    decreases ty, 2, |ns|
  {
    if ns == [] then Some([])
    else
      var init := ParseAll(lib, ty, ns[..|ns| - 1]);
      var last := Parse(lib, ty, TextAt(lib, ns[|ns| - 1]));
      if init.None? || last.None? then None else Some(init.value + [last.value])
  }

  function ParseFields<T, L>(lib: Lib<T, L>, ty: Type, es: seq<Entry>): (r: Option<seq<Field<L>>>)
    ensures r.Some? ==> |r.value| == |es|
    decreases ty, 2, |es|
  {
    if es == [] then Some([])
    else
      var init := ParseFields(lib, ty, es[..|es| - 1]);
      var last := Parse(lib, ty, lib.emit(es[|es| - 1].value));
      if init.None? || last.None? then None else Some(init.value + [Field(es[|es| - 1].key, last.value)])
  }

  // ---------------------------------------------------------------- round trip

  lemma {:induction false} SetKeyAppends(entries: seq<Entry>, key: string, value: Node)
    requires forall e | e in entries :: e.key != key
    ensures SetKey(entries, key, value) == entries + [Entry(key, value)]
  {
    if entries != [] {
      SetKeyAppends(entries[1..], key, value);
    }
  }

  /** Sorted keys are distinct, so every field becomes an entry of its own. */
  lemma {:induction false} EntriesInOrder<T, L(!new)>(lib: Lib<T, L>, ty: Type, fs: seq<Field<L>>)
    requires forall i | 0 <= i < |fs| :: Has(lib, ty, fs[i].value)
    requires Sorted(fs, KeyLess)
    ensures |Entries(lib, ty, fs)| == |fs|
    ensures forall i | 0 <= i < |fs| ::
              Entries(lib, ty, fs)[i] == Entry(fs[i].key, lib.load(Print(lib, ty, fs[i].value)))
    decreases |fs|
  {
    if fs != [] {
      var init, last := fs[..|fs| - 1], fs[|fs| - 1];
      EntriesInOrder(lib, ty, init);
      var es := Entries(lib, ty, init);
      forall i | 0 <= i < |es| ensures es[i].key != last.key {
        assert KeyLess(fs[i], last);
        StrLessAsymmetric(fs[i].key, last.key);
      }
      SetKeyAppends(es, last.key, lib.load(Print(lib, ty, last.value)));
    }
  }

  /** What the induction carries: a printed value parses back, as it stands and as the text
      of a child node. */
  ghost predicate Back<T, L>(lib: Lib<T, L>, ty: Type, v: Value<L>)
    requires Has(lib, ty, v)
  {
    && Parse(lib, ty, Print(lib, ty, v)) == Some(v)
    && Parse(lib, ty, lib.emit(lib.load(Print(lib, ty, v)))) == Some(v)
  }

  lemma ElementsEnd(ns: seq<Node>, n: Node)
    ensures Elements(Sequence(ns + [n])) == Elements(Sequence(ns)) + [Some(n)]
  {
  }

  lemma NodesEnd<T, L>(lib: Lib<T, L>, ty: Type, init: seq<Value<L>>, last: Value<L>)
    requires Has(lib, ty, last) && forall i | 0 <= i < |init| :: Has(lib, ty, init[i])
    ensures Nodes(lib, ty, init + [last]) == Nodes(lib, ty, init) + [lib.load(Print(lib, ty, last))]
  {
    hide Has, Print;
    assert (init + [last])[..|init|] == init;
  }

  lemma ParseAllEnd<T, L>(lib: Lib<T, L>, ty: Type, init: seq<Option<Node>>, last: Option<Node>)
    ensures ParseAll(lib, ty, []) == Some([])
    ensures var vs, v := ParseAll(lib, ty, init), Parse(lib, ty, TextAt(lib, last));
            ParseAll(lib, ty, init + [last]) == if vs.None? || v.None? then None else Some(vs.value + [v.value])
  {
    hide Parse;
    assert (init + [last])[..|init|] == init;
  }

  lemma {:induction false} NodesBack<T, L(!new)>(lib: Lib<T, L>, ty: Type, vs: seq<Value<L>>)
    requires Lawful(lib) && forall i | 0 <= i < |vs| :: Has(lib, ty, vs[i])
    ensures ParseAll(lib, ty, Elements(Sequence(Nodes(lib, ty, vs)))) == Some(vs)
    decreases ty, 1, |vs|
  {
    hide Has, Parse, Print, Lawful, Nodes, ParseAll, Elements;
    ParseAllEnd(lib, ty, [], None);
    if vs == [] {
      assert Elements(Sequence(Nodes(lib, ty, vs))) == [];
    } else {
      var init, last := vs[..|vs| - 1], vs[|vs| - 1];
      NodesBack(lib, ty, init);
      RoundTrips(lib, ty, last);
      assert vs == init + [last];
      var ns, n := Nodes(lib, ty, init), lib.load(Print(lib, ty, last));
      NodesEnd(lib, ty, init, last);
      ElementsEnd(ns, n);
      ParseAllEnd(lib, ty, Elements(Sequence(ns)), Some(n));
    }
  }

  lemma {:induction false} FieldsBack<T, L(!new)>(lib: Lib<T, L>, ty: Type, fs: seq<Field<L>>, es: seq<Entry>)
    requires Lawful(lib) && forall i | 0 <= i < |fs| :: Has(lib, ty, fs[i].value)
    requires |es| == |fs|
    requires forall i | 0 <= i < |fs| :: es[i] == Entry(fs[i].key, lib.load(Print(lib, ty, fs[i].value)))
    ensures ParseFields(lib, ty, es) == Some(fs)
    decreases ty, 1, |fs|
  {
    hide Has, Parse, Print, Lawful;
    if fs != [] {
      var init, last := fs[..|fs| - 1], fs[|fs| - 1];
      FieldsBack(lib, ty, init, es[..|es| - 1]);
      RoundTrips(lib, ty, last.value);
      assert fs == init + [last];
    }
  }

  lemma KeyLessIsStrict<L(!new)>()
    ensures StrictOrder<Field<L>>(KeyLess)
  {
    forall x: Field<L>, y: Field<L> | KeyLess(x, y) ensures !KeyLess(y, x) {
      StrLessAsymmetric(x.key, y.key);
    }
    forall x: Field<L>, y: Field<L>, z: Field<L> | KeyLess(x, y) && KeyLess(y, z) ensures KeyLess(x, z) {
      StrLessTransitive(x.key, y.key, z.key);
    }
  }

  lemma {:induction false} MapBack<T, L(!new)>(lib: Lib<T, L>, elem: Type, v: Value<L>)
    requires Lawful(lib) && Has(lib, StringMap(elem), v)
    requires ParseFields(lib, elem, Entries(lib, elem, v.fields)) == Some(v.fields)
    ensures Back(lib, StringMap(elem), v)
  {
    hide ParseFields, Entries, Insert, InsertAll, KeyLess;
    KeyLessIsStrict<L>();
    InsertSorted(v.fields, KeyLess);
    assert lib.load(Print(lib, StringMap(elem), v)) == Mapping(Entries(lib, elem, v.fields));
  }

  lemma {:induction false} ContainerBack<T, L(!new)>(lib: Lib<T, L>, kind: Kind, elem: Type, v: Value<L>)
    requires Lawful(lib) && Has(lib, Container(kind, elem), v)
    requires ParseAll(lib, elem, Elements(Sequence(Nodes(lib, elem, v.items)))) == Some(v.items)
    ensures Back(lib, Container(kind, elem), v)
  {
    hide ParseAll, Nodes, Insert, InsertAll, Elements;
    if kind.Set? {
      InsertSorted(v.items, lib.less);
    }
    assert lib.load(Print(lib, Container(kind, elem), v)) == Sequence(Nodes(lib, elem, v.items));
  }

  lemma {:induction false} RoundTrips<T, L(!new)>(lib: Lib<T, L>, ty: Type, v: Value<L>)
    requires Lawful(lib) && Has(lib, ty, v)
    ensures Back(lib, ty, v)
    decreases ty, 0
  {
    match ty
    case Leaf =>
    case StringMap(elem) =>
      EntriesInOrder(lib, elem, v.fields);
      FieldsBack(lib, elem, v.fields, Entries(lib, elem, v.fields));
      MapBack(lib, elem, v);
    case Container(kind, elem) =>
      NodesBack(lib, elem, v.items);
      ContainerBack(lib, kind, elem, v);
  }

  /** String to T after T to string is the identity, for every nesting of containers. */
  lemma RoundTrip<T, L(!new)>(lib: Lib<T, L>, ty: Type, v: Value<L>)
    requires Lawful(lib) && Has(lib, ty, v)
    ensures Parse(lib, ty, Print(lib, ty, v)) == Some(v)
  {
    RoundTrips(lib, ty, v);
  }

  /** What is parsed is a value of the type: sets sorted and duplicate free, maps by key. */
  lemma {:induction false} ParsedHasType<T, L(!new)>(lib: Lib<T, L>, ty: Type, text: T)
    requires StrictOrder(lib.less) && Parse(lib, ty, text).Some?
    ensures Has(lib, ty, Parse(lib, ty, text).value)
    decreases ty, 0
  {
    match ty
    case Leaf =>
    case StringMap(elem) =>
      var es := EntriesOf(lib.load(text)).value;
      ParsedFieldsHaveType(lib, elem, es);
      KeyLessIsStrict<L>();
      InsertAllSorted(ParseFields(lib, elem, es).value, KeyLess);
    case Container(_, elem) =>
      var ns := Elements(lib.load(text));
      ParsedItemsHaveType(lib, elem, ns);
      InsertAllSorted(ParseAll(lib, elem, ns).value, lib.less);
  }

  lemma {:induction false} ParsedItemsHaveType<T, L(!new)>(lib: Lib<T, L>, ty: Type, ns: seq<Option<Node>>)
    requires StrictOrder(lib.less) && ParseAll(lib, ty, ns).Some?
    ensures forall v | v in ParseAll(lib, ty, ns).value :: Has(lib, ty, v)
    decreases ty, 1, |ns|
  {
    if ns != [] {
      ParsedItemsHaveType(lib, ty, ns[..|ns| - 1]);
      ParsedHasType(lib, ty, TextAt(lib, ns[|ns| - 1]));
    }
  }

  lemma {:induction false} ParsedFieldsHaveType<T, L(!new)>(lib: Lib<T, L>, ty: Type, es: seq<Entry>)
    requires StrictOrder(lib.less) && ParseFields(lib, ty, es).Some?
    ensures forall f | f in ParseFields(lib, ty, es).value :: Has(lib, ty, f.value)
    decreases ty, 1, |es|
  {
    if es != [] {
      ParsedFieldsHaveType(lib, ty, es[..|es| - 1]);
      ParsedHasType(lib, ty, lib.emit(es[|es| - 1].value));
    }
  }

  predicate LeafLess(a: Value<string>, b: Value<string>) {
    a.One? && b.One? && StrLess(a.x, b.x)
  }

  lemma LeafLessIsStrict()
    ensures StrictOrder(LeafLess)
  {
    forall a, b | LeafLess(a, b) ensures !LeafLess(b, a) {
      StrLessAsymmetric(a.x, b.x);
    }
    forall a, b, c | LeafLess(a, b) && LeafLess(b, c) ensures LeafLess(a, c) {
      StrLessTransitive(a.x, b.x, c.x);
    }
  }

  const TREES: Lib<Node, string> :=
    Lib((n: Node) => n, (n: Node) => n, Null, (x: string) => Scalar(x),
        (n: Node) => if n.Scalar? then Some(n.text) else None, LeafLess)

  function Leaves(xs: seq<string>): (vs: seq<Value<string>>)
    ensures |vs| == |xs|
  {
    seq(|xs|, i requires 0 <= i < |xs| => One(xs[i]))
  }

  /** The assumptions can be met: texts that are trees, and leaves that are strings, of
      which any sorted list makes a set. */
  lemma LawfulExists(xs: seq<string>)
    requires Sorted(xs, StrLess)
    ensures Lawful(TREES) && Has(TREES, Container(Set, Leaf), Many(Leaves(xs)))
  {
    LeafLessIsStrict();
    assert Lawful(TREES);
  }

  // ------------------------------------------- texts that no cast has printed

  lemma StrLessIsWeak()
    ensures WeakOrder(StrLess)
  {
    forall x, y ensures StrLess(x, y) ==> !StrLess(y, x) {
      if StrLess(x, y) {
        StrLessAsymmetric(x, y);
      }
    }
    forall x, y, z ensures StrLess(x, y) && StrLess(y, z) ==> StrLess(x, z) {
      if StrLess(x, y) && StrLess(y, z) {
        StrLessTransitive(x, y, z);
      }
    }
    forall x, y, z ensures StrLess(x, z) ==> StrLess(x, y) || StrLess(y, z) {
      StrLessTotal(x, y);
      StrLessTotal(y, z);
    }
  }

  lemma KeyLessIsWeak<L(!new)>()
    ensures WeakOrder<Field<L>>(KeyLess)
  {
    StrLessIsWeak();
    assert forall x: Field<L>, y :: KeyLess(x, y) <==> StrLess(x.key, y.key);
  }

  /** From a mapping in any order, with any key twice, a map holds the first entry of each key. */
  lemma MapHoldsFirst<T, L(!new)>(lib: Lib<T, L>, elem: Type, text: T, f: Field<L>)
    requires lib.load(text).Mapping? && Parse(lib, StringMap(elem), text).Some?
    ensures ParseFields(lib, elem, lib.load(text).entries).Some?
    ensures var fs := ParseFields(lib, elem, lib.load(text).entries).value;
            f in Parse(lib, StringMap(elem), text).value.fields <==>
              exists i :: 0 <= i < |fs| && fs[i] == f && forall j | 0 <= j < i :: fs[j].key != f.key
  {
    var fs := ParseFields(lib, elem, lib.load(text).entries).value;
    KeyLessIsWeak<L>();
    InsertAllExactly(fs, KeyLess, f);
    forall i | 0 <= i < |fs| ensures FirstOfItsKind(fs, i, KeyLess) <==> forall j | 0 <= j < i :: fs[j].key != fs[i].key {
      forall j | 0 <= j < i ensures Equivalent(fs[j], fs[i], KeyLess) <==> fs[j].key == fs[i].key {
        SameKey(fs[j], fs[i]);
      }
    }
  }

  lemma SameKey<L>(x: Field<L>, y: Field<L>)
    ensures Equivalent(x, y, KeyLess) <==> x.key == y.key
  {
    StrLessTotal(x.key, y.key);
    if StrLess(x.key, y.key) {
      StrLessAsymmetric(x.key, y.key);
    }
    if StrLess(y.key, x.key) {
      StrLessAsymmetric(y.key, x.key);
    }
  }

  /** The fields are the entries, each with its own key and the value of its child's text. */
  lemma {:induction false} FieldsAreEntries<T, L>(lib: Lib<T, L>, elem: Type, es: seq<Entry>, i: nat)
    requires ParseFields(lib, elem, es).Some? && i < |es|
    ensures var fs := ParseFields(lib, elem, es).value;
            fs[i].key == es[i].key && Parse(lib, elem, lib.emit(es[i].value)) == Some(fs[i].value)
    decreases |es|
  {
    if i < |es| - 1 {
      FieldsAreEntries(lib, elem, es[..|es| - 1], i);
    }
  }

  /** From elements in any order a set holds the first of each kind. */
  lemma SetHoldsFirst<T, L(!new)>(lib: Lib<T, L>, elem: Type, text: T, v: Value<L>)
    requires WeakOrder(lib.less) && Parse(lib, Container(Set, elem), text).Some?
    ensures ParseAll(lib, elem, Elements(lib.load(text))).Some?
    ensures var vs := ParseAll(lib, elem, Elements(lib.load(text))).value;
            v in Parse(lib, Container(Set, elem), text).value.items <==>
              exists i :: 0 <= i < |vs| && vs[i] == v && FirstOfItsKind(vs, i, lib.less)
  {
    InsertAllExactly(ParseAll(lib, elem, Elements(lib.load(text))).value, lib.less, v);
  }

  /** The items are the elements, each read from its child's text. */
  lemma {:induction false} ItemsAreElements<T, L>(lib: Lib<T, L>, elem: Type, ns: seq<Option<Node>>, i: nat)
    requires ParseAll(lib, elem, ns).Some? && i < |ns|
    ensures Parse(lib, elem, if ns[i].Some? then lib.emit(ns[i].value) else lib.nothing)
         == Some(ParseAll(lib, elem, ns).value[i])
    decreases |ns|
  {
    if i < |ns| - 1 {
      ItemsAreElements(lib, elem, ns[..|ns| - 1], i);
    }
  }

  /** A scalar or nothing is read as an empty container of any kind; a sequence with elements
      is no map. */
  lemma OtherTexts<T, L(!new)>(lib: Lib<T, L>, kind: Kind, elem: Type, text: T)
    ensures lib.load(text).Null? || lib.load(text).Scalar? ==>
              && Parse(lib, Container(kind, elem), text) == Some(Many([]))
              && Parse(lib, StringMap(elem), text) == Some(Fields([]))
    ensures lib.load(text).Sequence? && lib.load(text).items != [] ==> Parse(lib, StringMap(elem), text).None?
    ensures lib.load(text) == Sequence([]) ==> Parse(lib, StringMap(elem), text) == Some(Fields([]))
  {
    InsertAllNil<Value<L>>(lib.less);
    InsertAllNil<Field<L>>(KeyLess);
  }

  // -------------------------------------------------------------- the casts

  /** LexicalCast<C, std::string>: loops fill a node, then it is emitted. */
  method ToText<T, L>(lib: Lib<T, L>, ty: Type, v: Value<L>) returns (text: T)
    requires Has(lib, ty, v)
    ensures text == Print(lib, ty, v)
    decreases ty
  {
    match ty {
      case Leaf =>
        text := lib.text(v.x);
      case StringMap(elem) =>
        var node: seq<Entry> := [];
        var i := 0;
        while i < |v.fields|
          invariant 0 <= i <= |v.fields|
          invariant node == Entries(lib, elem, v.fields[..i])
        {
          var s := ToText(lib, elem, v.fields[i].value);
          assert v.fields[..i + 1][..i] == v.fields[..i];
          node := SetKey(node, v.fields[i].key, lib.load(s));
          i := i + 1;
        }
        assert v.fields[..i] == v.fields;
        text := lib.emit(Mapping(node));
      case Container(_, elem) =>
        var node: seq<Node> := [];
        var i := 0;
        while i < |v.items|
          invariant 0 <= i <= |v.items|
          invariant node == Nodes(lib, elem, v.items[..i])
        {
          var s := ToText(lib, elem, v.items[i]);
          assert v.items[..i + 1][..i] == v.items[..i];
          node := node + [lib.load(s)];
          i := i + 1;
        }
        assert v.items[..i] == v.items;
        text := lib.emit(Sequence(node));
    }
  }

  /** LexicalCast<std::string, C>: the children's texts are cast and inserted one by one;
      the first that throws ends the cast. */
  method FromText<T, L>(lib: Lib<T, L>, ty: Type, text: T) returns (r: Option<Value<L>>)
    ensures r == Parse(lib, ty, text)
    decreases ty, 0
  {
    hide Insert, InsertAll;
    InsertAllNil<Value<L>>(lib.less);
    if ty.Leaf? {
      var x := lib.value(text);
      return if x.Some? then Some(One(x.value)) else None;
    }
    if ty.StringMap? {
      r := FromMapping(lib, ty.elem, text);
      return;
    }
    var isSet := ty.kind.Set?;
    var ns := Elements(lib.load(text));
    var vec: seq<Value<L>> := [];
    ghost var read: seq<Value<L>> := [];
    var i := 0;
    while i < |ns|
      invariant 0 <= i <= |ns|
      invariant ParseAll(lib, ty.elem, ns[..i]) == Some(read)
      invariant vec == if isSet then InsertAll(read, lib.less) else read
    {
      var x := FromText(lib, ty.elem, TextAt(lib, ns[i]));
      assert ns[..i + 1][..i] == ns[..i];
      if x.None? {
        ParseAllFails(lib, ty.elem, ns, i + 1);
        return None;
      }
      InsertAllEnd(read, x.value, lib.less);
      read := read + [x.value];
      vec := if isSet then Insert(vec, x.value, lib.less) else vec + [x.value];
      i := i + 1;
    }
    assert ns[..i] == ns;
    r := Some(Many(vec));
  }

  lemma ParseFieldsUpTo<T, L>(lib: Lib<T, L>, ty: Type, es: seq<Entry>, i: nat)
    requires i <= |es|
    ensures i == 0 ==> ParseFields(lib, ty, es[..i]) == Some([])
    ensures i == |es| ==> es[..i] == es
    ensures i > 0 ==>
              var init, last := ParseFields(lib, ty, es[..i - 1]), Parse(lib, ty, lib.emit(es[i - 1].value));
              ParseFields(lib, ty, es[..i]) == if init.None? || last.None? then None
                                               else Some(init.value + [Field(es[i - 1].key, last.value)])
  {
    assert i > 0 ==> es[..i][..i - 1] == es[..i - 1];
  }

  method FromMapping<T, L>(lib: Lib<T, L>, elem: Type, text: T) returns (r: Option<Value<L>>)
    ensures r == Parse(lib, StringMap(elem), text)
    decreases elem, 1
  {
    hide Insert, InsertAll, KeyLess, ParseFields;
    InsertAllNil<Field<L>>(KeyLess);
    var node := EntriesOf(lib.load(text));
    if node.None? {
      return None;
    }
    var es := node.value;
    var vec: seq<Field<L>> := [];
    ghost var read: seq<Field<L>> := [];
    var i := 0;
    ParseFieldsUpTo(lib, elem, es, 0);
    while i < |es|
      invariant 0 <= i <= |es|
      invariant ParseFields(lib, elem, es[..i]) == Some(read)
      invariant vec == InsertAll(read, KeyLess)
    {
      var x := FromText(lib, elem, lib.emit(es[i].value));
      ParseFieldsUpTo(lib, elem, es, i + 1);
      if x.None? {
        ParseFieldsFails(lib, elem, es, i + 1);
        return None;
      }
      InsertAllEnd(read, Field(es[i].key, x.value), KeyLess);
      read := read + [Field(es[i].key, x.value)];
      vec := Insert(vec, Field(es[i].key, x.value), KeyLess);
      i := i + 1;
    }
    ParseFieldsUpTo(lib, elem, es, i);
    r := Some(Fields(vec));
  }

  lemma {:induction false} ParseAllFails<T, L>(lib: Lib<T, L>, ty: Type, ns: seq<Option<Node>>, i: nat)
    requires i <= |ns| && ParseAll(lib, ty, ns[..i]).None?
    ensures ParseAll(lib, ty, ns).None?
    decreases |ns| - i
  {
    if i == |ns| {
      assert ns[..i] == ns;
    } else {
      assert ns[..i + 1][..i] == ns[..i];
      ParseAllFails(lib, ty, ns, i + 1);
    }
  }

  lemma {:induction false} ParseFieldsFails<T, L>(lib: Lib<T, L>, ty: Type, es: seq<Entry>, i: nat)
    requires i <= |es| && ParseFields(lib, ty, es[..i]).None?
    ensures ParseFields(lib, ty, es).None?
    decreases |es| - i
  {
    if i == |es| {
      assert es[..i] == es;
    } else {
      assert es[..i + 1][..i] == es[..i];
      ParseFieldsFails(lib, ty, es, i + 1);
    }
  }
}
