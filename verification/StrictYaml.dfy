/** The strict YAML walk: one pass over a document with two running counters. */
module StrictYaml {
  import opened Text

  const MAX_EXPANDED_YAML_NODES: nat := 100_000
  const MAX_EXPANDED_YAML_SCALAR_BYTES: nat := 8 * 1024 * 1024

  datatype Key = TextKey(text: string) | OtherKey

  /** A document as the deserializer presents it; `Refused` is whatever the visitor or the parser rejects outright. */
  datatype Doc =
    | Null
    | Boolean(b: bool)
    | Integer(i: int)
    | Float(finite: bool)
    | Scalar(text: string)
    | Wrapped(inner: Doc)
    | Sequence(items: seq<Doc>)
    | Mapping(entries: seq<Entry>)
    | Refused

  datatype Entry = Entry(key: Key, value: Doc)

  // ---------------------------------------------------------------- what is accepted

  /** Nodes after expansion: every value and every key. */
  function Nodes(d: Doc): nat {
    match d
    case Wrapped(inner) => 1 + Nodes(inner)
    case Sequence(items) => 1 + NodesOfItems(items)
    case Mapping(entries) => 1 + NodesOfEntries(entries)
    case _ => 1
  }

  function NodesOfItems(items: seq<Doc>): nat {
    if items == [] then 0 else NodesOfItems(items[..|items| - 1]) + Nodes(items[|items| - 1])
  }

  function NodesOfEntries(entries: seq<Entry>): nat {
    if entries == [] then 0 else NodesOfEntries(entries[..|entries| - 1]) + NodesOfEntry(entries[|entries| - 1])
  }

  function NodesOfEntry(e: Entry): nat {
    1 + Nodes(e.value)
  }

  /** Bytes of all scalars and keys. */
  function Bytes(d: Doc): nat {
    match d
    case Scalar(text) => ByteLength(text)
    case Wrapped(inner) => Bytes(inner)
    case Sequence(items) => BytesOfItems(items)
    case Mapping(entries) => BytesOfEntries(entries)
    case _ => 0
  }

  function BytesOfItems(items: seq<Doc>): nat {
    if items == [] then 0 else BytesOfItems(items[..|items| - 1]) + Bytes(items[|items| - 1])
  }

  function KeyBytes(k: Key): nat {
    if k.TextKey? then ByteLength(k.text) else 0
  }

  function BytesOfEntries(entries: seq<Entry>): nat {
    if entries == [] then 0 else BytesOfEntries(entries[..|entries| - 1]) + BytesOfEntry(entries[|entries| - 1])
  }

  function BytesOfEntry(e: Entry): nat {
    KeyBytes(e.key) + Bytes(e.value)
  }

  predicate TextKeys(entries: seq<Entry>) {
    forall i :: 0 <= i < |entries| ==> entries[i].key.TextKey?
  }

  predicate DistinctKeys(entries: seq<Entry>) {
    forall i, j :: 0 <= i < j < |entries| ==> entries[i].key != entries[j].key
  }

  predicate SaneValues(entries: seq<Entry>) {
    forall i :: 0 <= i < |entries| ==> Sane(entries[i].value)
  }

  /** Unique text keys in every mapping at every depth, only finite floats, nothing refused. */
  predicate Sane(d: Doc) {
    match d
    case Float(finite) => finite
    case Wrapped(inner) => Sane(inner)
    case Sequence(items) => forall i :: 0 <= i < |items| ==> Sane(items[i])
    case Mapping(entries) =>
      && TextKeys(entries) && DistinctKeys(entries)
      && forall i :: 0 <= i < |entries| ==> Sane(entries[i].value)
    case Refused => false
    case _ => true
  }

  lemma {:induction false} ItemsPrefix(items: seq<Doc>, k: nat)
    requires k <= |items|
    ensures NodesOfItems(items[..k]) <= NodesOfItems(items)
    ensures BytesOfItems(items[..k]) <= BytesOfItems(items)
  {
    if k < |items| {
      ItemsPrefix(items[..|items| - 1], k);
      assert items[..|items| - 1][..k] == items[..k];
    } else {
      assert items[..k] == items;
    }
  }

  lemma {:induction false} EntriesPrefix(entries: seq<Entry>, k: nat)
    requires k <= |entries|
    ensures NodesOfEntries(entries[..k]) <= NodesOfEntries(entries)
    ensures BytesOfEntries(entries[..k]) <= BytesOfEntries(entries)
  {
    if k < |entries| {
      EntriesPrefix(entries[..|entries| - 1], k);
      assert entries[..|entries| - 1][..k] == entries[..k];
    } else {
      assert entries[..k] == entries;
    }
  }

  lemma NextItem(items: seq<Doc>, k: nat)
    requires k < |items|
    ensures NodesOfItems(items[..k + 1]) == NodesOfItems(items[..k]) + Nodes(items[k]) <= NodesOfItems(items)
    ensures BytesOfItems(items[..k + 1]) == BytesOfItems(items[..k]) + Bytes(items[k]) <= BytesOfItems(items)
  {
    ItemsPrefix(items, k + 1);
    assert items[..k + 1][..k] == items[..k];
  }

  lemma NextEntry(entries: seq<Entry>, k: nat)
    requires k < |entries|
    ensures NodesOfEntries(entries[..k + 1]) == NodesOfEntries(entries[..k]) + 1 + Nodes(entries[k].value) <= NodesOfEntries(entries)
    ensures BytesOfEntries(entries[..k + 1]) == BytesOfEntries(entries[..k]) + KeyBytes(entries[k].key) + Bytes(entries[k].value)
              <= BytesOfEntries(entries)
  {
    EntriesPrefix(entries, k + 1);
    assert entries[..k + 1][..k] == entries[..k];
  }

  function KeyTexts(entries: seq<Entry>): set<string> {
    set e | e in entries && e.key.TextKey? :: e.key.text
  }

  /** The part of a mapping that is sane in itself. */
  predicate SaneEntries(entries: seq<Entry>) {
    TextKeys(entries) && DistinctKeys(entries) && SaneValues(entries)
  }

  /** One more entry stays sane exactly when its key is new text and its value is sane. */
  lemma NextSane(entries: seq<Entry>, k: nat)
    requires k < |entries| && SaneEntries(entries[..k])
    ensures SaneEntries(entries[..k + 1]) <==>
      entries[k].key.TextKey? && entries[k].key.text !in KeyTexts(entries[..k]) && Sane(entries[k].value)
    ensures SaneEntries(entries) ==> SaneEntries(entries[..k + 1])
    ensures entries[k].key.TextKey? ==> KeyTexts(entries[..k + 1]) == KeyTexts(entries[..k]) + {entries[k].key.text}
  {
    var prefix, next := entries[..k], entries[..k + 1];
    assert next == prefix + [entries[k]];
    if entries[k].key.TextKey? {
      if entries[k].key.text in KeyTexts(prefix) {
        var e :| e in prefix && e.key == entries[k].key;
        var i :| 0 <= i < k && prefix[i] == e;
        assert next[i].key == next[k].key;
      } else {
        forall i | 0 <= i < k ensures prefix[i].key != entries[k].key {
          assert prefix[i] in prefix;
        }
      }
    } else {
      assert !next[k].key.TextKey?;
    }
    assert next[k] == entries[k];
  }

  // ---------------------------------------------------------------- the walk

  class StrictYamlBudget {
    var nodes: nat
    var scalarBytes: nat

    constructor ()
      ensures nodes == 0 && scalarBytes == 0
    {
      nodes, scalarBytes := 0, 0;
    }

    predicate Within()
      reads this
    {
      nodes <= MAX_EXPANDED_YAML_NODES && scalarBytes <= MAX_EXPANDED_YAML_SCALAR_BYTES
    }

    /** Room for this much more. */
    predicate Room(moreNodes: nat, moreBytes: nat)
      reads this
    {
      nodes + moreNodes <= MAX_EXPANDED_YAML_NODES && scalarBytes + moreBytes <= MAX_EXPANDED_YAML_SCALAR_BYTES
    }

    method AddNode() returns (ok: bool)
      requires Within()
      modifies this
      ensures Within() && scalarBytes == old(scalarBytes)
      ensures ok == old(Room(1, 0))
      ensures nodes == if ok then old(nodes) + 1 else old(nodes)
    {
      if nodes + 1 > MAX_EXPANDED_YAML_NODES { return false; }
      nodes := nodes + 1;
      ok := true;
    }

    method AddScalarBytes(bytes: nat) returns (ok: bool)
      requires Within()
      modifies this
      ensures Within() && nodes == old(nodes)
      ensures ok == old(Room(0, bytes))
      ensures scalarBytes == if ok then old(scalarBytes) + bytes else old(scalarBytes)
    {
      if scalarBytes + bytes > MAX_EXPANDED_YAML_SCALAR_BYTES { return false; }
      scalarBytes := scalarBytes + bytes;
      ok := true;
    }

    /** `StrictYamlSeed`: accepts exactly when the value is sane and what is left of the budget covers it; then it is charged in full. */
    method Visit(d: Doc) returns (ok: bool)
      requires Within()
      modifies this
      ensures Within()
      ensures ok <==> Sane(d) && old(Room(Nodes(d), Bytes(d)))
      ensures ok ==> nodes == old(nodes) + Nodes(d) && scalarBytes == old(scalarBytes) + Bytes(d)
      decreases d, 1
    {
      ok := AddNode();
      if !ok { return; }
      match d
      case Float(finite) => ok := finite;
      case Scalar(text) => ok := AddScalarBytes(ByteLength(text));
      case Wrapped(inner) => ok := Visit(inner);
      case Sequence(items) => ok := VisitSeq(d, items);
      case Mapping(entries) => ok := VisitMap(d, entries);
      case Refused => ok := false;
      case _ =>
    }

    method VisitSeq(ghost d: Doc, items: seq<Doc>) returns (ok: bool)
      requires Within() && d == Sequence(items)
      modifies this
      ensures Within()
      ensures ok <==> Sane(d) && old(Room(NodesOfItems(items), BytesOfItems(items)))
      ensures ok ==> nodes == old(nodes) + NodesOfItems(items) && scalarBytes == old(scalarBytes) + BytesOfItems(items)
      decreases d, 0
    {
      for i := 0 to |items|
        invariant Within()
        invariant forall k :: 0 <= k < i ==> Sane(items[k])
        invariant nodes == old(nodes) + NodesOfItems(items[..i])
        invariant scalarBytes == old(scalarBytes) + BytesOfItems(items[..i])
      {
        NextItem(items, i);
        ok := Visit(items[i]);
        if !ok { return; }
      }
      assert items[..|items|] == items;
      ok := true;
    }

    /** `StrictYamlKeySeed`: a key counts as a node and must be text. */
    method VisitKey(key: Key) returns (ok: bool)
      requires Within()
      modifies this
      ensures Within()
      ensures ok <==> key.TextKey? && old(Room(1, KeyBytes(key)))
      ensures ok ==> nodes == old(nodes) + 1 && scalarBytes == old(scalarBytes) + KeyBytes(key)
    {
      ok := AddNode();
      if !ok { return; }
      if key.OtherKey? { return false; }
      ok := AddScalarBytes(ByteLength(key.text));
    }

    method VisitMap(ghost d: Doc, entries: seq<Entry>) returns (ok: bool)
      requires Within() && d == Mapping(entries)
      modifies this
      ensures Within()
      ensures ok <==> Sane(d) && old(Room(NodesOfEntries(entries), BytesOfEntries(entries)))
      ensures ok ==> nodes == old(nodes) + NodesOfEntries(entries) && scalarBytes == old(scalarBytes) + BytesOfEntries(entries)
      decreases d, 0
    {
      var keys: set<string> := {};
      for i := 0 to |entries|
        invariant Within()
        invariant SaneEntries(entries[..i]) && keys == KeyTexts(entries[..i])
        invariant nodes == old(nodes) + NodesOfEntries(entries[..i])
        invariant scalarBytes == old(scalarBytes) + BytesOfEntries(entries[..i])
      {
        NextEntry(entries, i);
        NextSane(entries, i);
        var key := entries[i].key;
        ok := VisitKey(key);
        if !ok { return; }
        if key.text in keys { return false; }
        keys := keys + {key.text};
        ok := Visit(entries[i].value);
        if !ok { return; }
      }
      assert entries[..|entries|] == entries;
      ok := true;
    }
  }

  /** `validate_strict_yaml` over the documents of a stream: at most one, and it must fit. */
  method ValidateStrictYaml(documents: seq<Doc>) returns (ok: bool)
    ensures ok <==>
      && |documents| <= 1
      && (documents != [] ==>
            && Sane(documents[0])
            && Nodes(documents[0]) <= MAX_EXPANDED_YAML_NODES
            && Bytes(documents[0]) <= MAX_EXPANDED_YAML_SCALAR_BYTES)
  {
    var budget := new StrictYamlBudget();
    var count := 0;
    for i := 0 to |documents|
      invariant count == i <= 1
      invariant budget.Within() && fresh(budget)
      invariant i == 0 ==> budget.nodes == 0 && budget.scalarBytes == 0
      invariant i == 1 ==>
        && Sane(documents[0])
        && Nodes(documents[0]) <= MAX_EXPANDED_YAML_NODES && Bytes(documents[0]) <= MAX_EXPANDED_YAML_SCALAR_BYTES
    {
      count := count + 1;
      if count > 1 { return false; }
      ok := budget.Visit(documents[i]);
      if !ok { return; }
    }
    ok := true;
  }
}
