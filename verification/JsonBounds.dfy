/** The bounded copy of a value that crosses the host boundary: one node counter is shared by the whole
    traversal, and the copy is refused when any bound is passed. */
module JsonBounds {
  import opened Wrappers
  import opened JsonText

  const MAX_DEPTH := 16
  const MAX_NODES := 4096
  const MAX_ITEMS := 512
  const MAX_STRING := 65536
  const MAX_KEY := 255

  /** A key or a value as it comes in, before anything is known about its type. */
  datatype RawKey = TextKey(text: string) | OtherKey(id: nat)

  datatype Raw =
    | RawNull
    | RawBool(b: bool)
    | RawInt(n: int)
    | RawStr(s: string)
    | RawList(items: seq<Raw>)
    | RawMap(entries: seq<Entry>)
    | RawOther

  datatype Entry = Entry(key: RawKey, item: Raw)

  /** The entries of a mapping have distinct keys, all the way down. */
  ghost predicate WellFormed(v: Raw) {
    match v
    case RawList(items) => forall x <- items :: WellFormed(x)
    case RawMap(entries) =>
      && (forall i, j :: 0 <= i < j < |entries| ==> entries[i].key != entries[j].key)
      && (forall e <- entries :: WellFormed(e.item))
    case _ => true
  }

  // ----- the pure definition

  predicate KeyFits(k: RawKey) {
    k.TextKey? && 0 < |k.text| <= MAX_KEY
  }

  predicate StringFits(s: string) {
    |s| <= MAX_STRING && (0 as char) !in s
  }

  /** Every bound except the number of nodes. */
  predicate Fits(v: Raw, depth: nat) {
    && depth <= MAX_DEPTH
    && match v
       case RawInt(n) => -INT_LIMIT <= n < INT_LIMIT
       case RawStr(s) => StringFits(s)
       case RawList(items) => |items| <= MAX_ITEMS && forall x <- items :: Fits(x, depth + 1)
       case RawMap(entries) => |entries| <= MAX_ITEMS && forall e <- entries :: KeyFits(e.key) && Fits(e.item, depth + 1)
       case RawOther => false
       case _ => true
  }

  function Count(v: Raw): (n: nat)
    ensures 1 <= n
    decreases v, 1
  {
    match v
    case RawList(items) => 1 + CountItems(items)
    case RawMap(entries) => 1 + CountEntries(entries)
    case _ => 1
  }

  function CountItems(items: seq<Raw>): nat
    decreases items, 0
  {
    if items == [] then 0 else CountItems(items[..|items| - 1]) + Count(items[|items| - 1])
  }

  function CountEntries(entries: seq<Entry>): nat
    decreases entries, 0
  {
    if entries == [] then 0 else CountEntries(entries[..|entries| - 1]) + CountEntry(entries[|entries| - 1])
  }

  function CountEntry(e: Entry): (n: nat)
    ensures 1 <= n
    decreases e, 2
  {
    Count(e.item)
  }

  function KeyText(k: RawKey): string {
    if k.TextKey? then k.text else ""
  }

  /** The plain JSON value that v stands for. */
  function Value(v: Raw): Json
    decreases v, 1
  {
    match v
    case RawNull => Null
    case RawBool(b) => Bool(b)
    case RawInt(n) => Num(n)
    case RawStr(s) => Str(s)
    case RawList(items) => Arr(Values(items))
    case RawMap(entries) => Obj(Fields(entries))
    case RawOther => Null
  }

  function Values(items: seq<Raw>): (js: seq<Json>)
    ensures |js| == |items|
    decreases items, 0
  {
    if items == [] then [] else Values(items[..|items| - 1]) + [Value(items[|items| - 1])]
  }

  function Fields(entries: seq<Entry>): map<string, Json>
    decreases entries, 0
  {
    if entries == [] then map[]
    else
      var last := entries[|entries| - 1];
      Fields(entries[..|entries| - 1])[KeyText(last.key) := FieldValue(last)]
  }

  function FieldValue(e: Entry): Json
    decreases e, 2
  {
    Value(e.item)
  }

  lemma {:induction false} CountPrefix(items: seq<Raw>, i: nat)
    requires i < |items|
    ensures CountItems(items[..i]) + Count(items[i]) <= CountItems(items)
    ensures CountItems(items[..i + 1]) == CountItems(items[..i]) + Count(items[i])
    decreases |items|
  {
    assert items[..i + 1][..i] == items[..i];
    if i == |items| - 1 {
      assert items[..i + 1] == items;
    } else {
      var init := items[..|items| - 1];
      CountPrefix(init, i);
      assert init[..i] == items[..i];
    }
  }

  lemma {:induction false} CountEntryPrefix(entries: seq<Entry>, i: nat)
    requires i < |entries|
    ensures CountEntries(entries[..i]) + CountEntry(entries[i]) <= CountEntries(entries)
    ensures CountEntries(entries[..i + 1]) == CountEntries(entries[..i]) + CountEntry(entries[i])
    decreases |entries|
  {
    assert entries[..i + 1][..i] == entries[..i];
    if i == |entries| - 1 {
      assert entries[..i + 1] == entries;
    } else {
      var init := entries[..|entries| - 1];
      CountEntryPrefix(init, i);
      assert init[..i] == entries[..i];
    }
  }

  // ----- the traversal

  /** Copies v, counting every node it visits in nodes[0]. It succeeds exactly when every bound holds
      and the count, from where it stood, stays within the budget. */
  method CopyValue(v: Raw, depth: nat, nodes: array<int>) returns (r: Option<Json>)
    requires nodes.Length == 1
    modifies nodes
    ensures r.Some? <==> Fits(v, depth) && old(nodes[0]) + Count(v) <= MAX_NODES
    ensures r.Some? ==> r.value == Value(v) && nodes[0] == old(nodes[0]) + Count(v)
    decreases v, 1
  {
    nodes[0] := nodes[0] + 1;
    if depth > MAX_DEPTH || nodes[0] > MAX_NODES { return None; }
    match v
    case RawNull => return Some(Null);
    case RawBool(b) => return Some(Bool(b));
    case RawInt(n) =>
      if !(-INT_LIMIT <= n < INT_LIMIT) { return None; }
      return Some(Num(n));
    case RawStr(s) =>
      if !StringFits(s) { return None; }
      return Some(Str(s));
    case RawMap(entries) =>
      if |entries| > MAX_ITEMS { return None; }
      r := CopyEntries(entries, depth + 1, nodes);
    case RawList(items) =>
      if |items| > MAX_ITEMS { return None; }
      r := CopyItems(items, depth + 1, nodes);
    case RawOther => return None;
  }

  method CopyEntries(entries: seq<Entry>, depth: nat, nodes: array<int>) returns (r: Option<Json>)
    requires nodes.Length == 1 && nodes[0] <= MAX_NODES
    modifies nodes
    ensures r.Some? <==> (forall e <- entries :: KeyFits(e.key) && Fits(e.item, depth)) && old(nodes[0]) + CountEntries(entries) <= MAX_NODES
    ensures r.Some? ==> r.value == Obj(Fields(entries)) && nodes[0] == old(nodes[0]) + CountEntries(entries)
    decreases entries, 0
  {
    var fields: map<string, Json> := map[];
    for i := 0 to |entries|
      invariant nodes[0] == old(nodes[0]) + CountEntries(entries[..i]) <= MAX_NODES
      invariant forall k :: 0 <= k < i ==> KeyFits(entries[k].key) && Fits(entries[k].item, depth)
      invariant fields == Fields(entries[..i])
    {
      CountEntryPrefix(entries, i);
      var e := entries[i];
      assert e in entries;
      if !e.key.TextKey? || |e.key.text| == 0 || |e.key.text| > MAX_KEY { return None; }
      var copy := CopyEntry(e, depth, nodes);
      if copy.None? { return None; }
      fields := fields[e.key.text := copy.value];
      assert entries[..i + 1][..i] == entries[..i];
    }
    assert entries[..|entries|] == entries;
    return Some(Obj(fields));
  }

  method CopyEntry(e: Entry, depth: nat, nodes: array<int>) returns (r: Option<Json>)
    requires nodes.Length == 1
    modifies nodes
    ensures r.Some? <==> Fits(e.item, depth) && old(nodes[0]) + CountEntry(e) <= MAX_NODES
    ensures r.Some? ==> r.value == FieldValue(e) && nodes[0] == old(nodes[0]) + CountEntry(e)
    decreases e, 2
  {
    r := CopyValue(e.item, depth, nodes);
  }

  method CopyItems(items: seq<Raw>, depth: nat, nodes: array<int>) returns (r: Option<Json>)
    requires nodes.Length == 1 && nodes[0] <= MAX_NODES
    modifies nodes
    ensures r.Some? <==> (forall x <- items :: Fits(x, depth)) && old(nodes[0]) + CountItems(items) <= MAX_NODES
    ensures r.Some? ==> r.value == Arr(Values(items)) && nodes[0] == old(nodes[0]) + CountItems(items)
    decreases items, 0
  {
    var copies: seq<Json> := [];
    for i := 0 to |items|
      invariant nodes[0] == old(nodes[0]) + CountItems(items[..i]) <= MAX_NODES
      invariant forall k :: 0 <= k < i ==> Fits(items[k], depth)
      invariant copies == Values(items[..i])
    {
      CountPrefix(items, i);
      assert items[i] in items;
      var copy := CopyValue(items[i], depth, nodes);
      if copy.None? { return None; }
      copies := copies + [copy.value];
      assert items[..i + 1][..i] == items[..i];
    }
    assert items[..|items|] == items;
    return Some(Arr(copies));
  }

  /** Copies one object with a counter of its own. */
  method CopyObject(v: Raw) returns (r: Option<map<string, Json>>)
    ensures r.Some? <==> v.RawMap? && Fits(v, 0) && Count(v) <= MAX_NODES
    ensures r.Some? ==> Obj(r.value) == Value(v)
  {
    var nodes := new int[1];
    nodes[0] := 0;
    var copy := CopyValue(v, 0, nodes);
    if copy.None? || !copy.value.Obj? { return None; }
    r := Some(copy.value.fields);
  }

  // ----- the same bounds on plain values

  predicate Bounded(j: Json, depth: nat) {
    && depth <= MAX_DEPTH
    && match j
       case Num(n) => -INT_LIMIT <= n < INT_LIMIT
       case Str(s) => StringFits(s)
       case Arr(items) => |items| <= MAX_ITEMS && forall x <- items :: Bounded(x, depth + 1)
       case Obj(fields) =>
         |fields| <= MAX_ITEMS && forall k <- fields :: 0 < |k| <= MAX_KEY && Bounded(fields[k], depth + 1)
       case _ => true
  }

  ghost function Nodes(j: Json): nat
    decreases j, 2
  {
    match j
    case Arr(items) => 1 + NodesOf(items)
    case Obj(fields) => 1 + NodesOver(j, fields.Keys)
    case _ => 1
  }

  ghost function NodesOf(items: seq<Json>): nat
    decreases items, 1
  {
    if items == [] then 0 else NodesOf(items[..|items| - 1]) + Nodes(items[|items| - 1])
  }

  ghost function NodesOver(j: Json, keys: set<string>): nat
    requires j.Obj? && keys <= j.fields.Keys
    decreases j, 1, |keys|
  {
    if keys == {} then 0
    else
      var k :| k in keys;
      Nodes(j.fields[k]) + NodesOver(j, keys - {k})
  }

  /** Any key may be taken out first. */
  lemma {:induction false} NodesOverAny(j: Json, keys: set<string>, x: string)
    requires j.Obj? && keys <= j.fields.Keys && x in keys
    ensures NodesOver(j, keys) == Nodes(j.fields[x]) + NodesOver(j, keys - {x})
    decreases |keys|
  {
    var k :| k in keys && NodesOver(j, keys) == Nodes(j.fields[k]) + NodesOver(j, keys - {k});
    if k != x {
      NodesOverAny(j, keys - {k}, x);
      NodesOverAny(j, keys - {x}, k);
      assert keys - {k} - {x} == keys - {x} - {k};
    }
  }

  /** The same fields counted in two objects. */
  lemma {:induction false} NodesOverSame(a: Json, b: Json, keys: set<string>)
    requires a.Obj? && b.Obj? && keys <= a.fields.Keys && keys <= b.fields.Keys
    requires forall k <- keys :: a.fields[k] == b.fields[k]
    ensures NodesOver(a, keys) == NodesOver(b, keys)
    decreases |keys|
  {
    if keys != {} {
      var k :| k in keys;
      NodesOverAny(a, keys, k);
      NodesOverAny(b, keys, k);
      NodesOverSame(a, b, keys - {k});
    }
  }

  lemma NewKey(entries: seq<Entry>, last: string)
    requires entries != [] && entries[|entries| - 1].key == TextKey(last)
    requires forall i, j :: 0 <= i < j < |entries| ==> entries[i].key != entries[j].key
    requires var init := entries[..|entries| - 1];
             forall k :: k in Fields(init) <==> exists i :: 0 <= i < |init| && init[i].key == TextKey(k)
    ensures last !in Fields(entries[..|entries| - 1])
  {
    var init := entries[..|entries| - 1];
    forall i | 0 <= i < |init| ensures init[i].key != TextKey(last) { assert init[i] == entries[i]; }
  }

  lemma {:induction false} FieldKeys(entries: seq<Entry>)
    requires forall e <- entries :: KeyFits(e.key)
    requires forall i, j :: 0 <= i < j < |entries| ==> entries[i].key != entries[j].key
    ensures forall k :: k in Fields(entries) <==> exists i :: 0 <= i < |entries| && entries[i].key == TextKey(k)
    ensures |Fields(entries)| == |entries|
    decreases |entries|
  {
    if entries != [] {
      var n := |entries| - 1;
      var init := entries[..n];
      FieldKeys(init);
      assert entries[n] in entries;
      var last := entries[n].key.text;
      NewKey(entries, last);
      forall k ensures k in Fields(entries) <==> exists i :: 0 <= i < |entries| && entries[i].key == TextKey(k) {
        KeyAppears(entries, n, k);
      }
    }
  }

  lemma KeyAppears(entries: seq<Entry>, n: nat, k: string)
    requires n < |entries|
    ensures (exists i :: 0 <= i < n + 1 && entries[i].key == TextKey(k))
            <==> entries[n].key == TextKey(k) || exists i :: 0 <= i < n && entries[..n][i].key == TextKey(k)
  {
    if i :| 0 <= i < n && entries[i].key == TextKey(k) { assert entries[..n][i].key == TextKey(k); }
    if i :| 0 <= i < n && entries[..n][i].key == TextKey(k) { assert entries[i].key == TextKey(k); }
  }

  /** A value and its plain form have the same number of nodes. */
  lemma {:induction false} CountIsNodes(v: Raw, depth: nat)
    requires WellFormed(v) && Fits(v, depth)
    ensures Count(v) == Nodes(Value(v))
    decreases v, 1
  {
    match v
    case RawList(items) => CountItemsIsNodes(items, depth + 1);
    case RawMap(entries) => CountEntriesIsNodes(entries, depth + 1);
    case _ =>
  }

  lemma {:induction false} CountItemsIsNodes(items: seq<Raw>, depth: nat)
    requires forall x <- items :: WellFormed(x) && Fits(x, depth)
    ensures CountItems(items) == NodesOf(Values(items))
    decreases items, 0
  {
    if items != [] {
      var init := items[..|items| - 1];
      CountItemsIsNodes(init, depth);
      CountIsNodes(items[|items| - 1], depth);
      assert Values(items)[..|items| - 1] == Values(init);
    }
  }

  lemma {:induction false} NodesAdded(fields: map<string, Json>, k: string, j: Json)
    requires k !in fields
    ensures var more := fields[k := j];
            NodesOver(Obj(more), more.Keys) == NodesOver(Obj(fields), fields.Keys) + Nodes(j)
  {
    var whole := Obj(fields[k := j]);
    NodesOverAny(whole, whole.fields.Keys, k);
    assert whole.fields.Keys - {k} == fields.Keys;
    NodesOverSame(whole, Obj(fields), fields.Keys);
  }

  lemma {:induction false} CountEntriesIsNodes(entries: seq<Entry>, depth: nat)
    requires forall i, j :: 0 <= i < j < |entries| ==> entries[i].key != entries[j].key
    requires forall e <- entries :: WellFormed(e.item) && KeyFits(e.key) && Fits(e.item, depth)
    ensures CountEntries(entries) == NodesOver(Obj(Fields(entries)), Fields(entries).Keys)
    decreases entries, 0
  {
    if entries != [] {
      var n := |entries| - 1;
      var init := entries[..n];
      var last := KeyText(entries[n].key);
      CountEntriesIsNodes(init, depth);
      EntryIsNodes(entries[n], depth);
      FieldKeys(init);
      NewKey(entries, last);
      NodesAdded(Fields(init), last, FieldValue(entries[n]));
    }
  }

  lemma {:induction false} EntryIsNodes(e: Entry, depth: nat)
    requires WellFormed(e.item) && Fits(e.item, depth)
    ensures CountEntry(e) == Nodes(FieldValue(e))
    decreases e, 2
  {
    CountIsNodes(e.item, depth);
  }

  /** The bounds read off a value are those of its plain form. */
  lemma {:induction false} FitsIsBounded(v: Raw, depth: nat)
    requires WellFormed(v) && Fits(v, depth)
    ensures Bounded(Value(v), depth)
    decreases v, 1
  {
    match v
    case RawList(items) => ItemsBounded(items, depth + 1);
    case RawMap(entries) =>
      FieldKeys(entries);
      EntriesBounded(entries, depth + 1);
    case _ =>
  }

  lemma {:induction false} ItemsBounded(items: seq<Raw>, depth: nat)
    requires forall x <- items :: WellFormed(x) && Fits(x, depth)
    ensures forall j <- Values(items) :: Bounded(j, depth)
    decreases items, 0
  {
    if items != [] {
      ItemsBounded(items[..|items| - 1], depth);
      FitsIsBounded(items[|items| - 1], depth);
    }
  }

  lemma {:induction false} EntriesBounded(entries: seq<Entry>, depth: nat)
    requires forall e <- entries :: WellFormed(e.item) && KeyFits(e.key) && Fits(e.item, depth)
    ensures forall k <- Fields(entries) :: 0 < |k| <= MAX_KEY && Bounded(Fields(entries)[k], depth)
    decreases entries, 0
  {
    if entries != [] {
      EntriesBounded(entries[..|entries| - 1], depth);
      EntryBounded(entries[|entries| - 1], depth);
    }
  }

  lemma {:induction false} EntryBounded(e: Entry, depth: nat)
    requires WellFormed(e.item) && Fits(e.item, depth)
    ensures Bounded(FieldValue(e), depth)
    decreases e, 2
  {
    FitsIsBounded(e.item, depth);
  }

  // ----- copying again

  /** A plain value handed in again, its fields in key order. */
  ghost function Listing(j: Json): Raw
    decreases j, 2
  {
    match j
    case Null => RawNull
    case Bool(b) => RawBool(b)
    case Num(n) => RawInt(n)
    case Str(s) => RawStr(s)
    case Arr(items) => RawList(Listings(items))
    case Obj(fields) => RawMap(Entries(j, Sorted(fields.Keys)))
  }

  ghost function Listings(items: seq<Json>): (vs: seq<Raw>)
    ensures |vs| == |items|
    decreases items, 1
  {
    if items == [] then [] else Listings(items[..|items| - 1]) + [Listing(items[|items| - 1])]
  }

  ghost function Entries(j: Json, keys: seq<string>): (es: seq<Entry>)
    requires j.Obj? && forall k <- keys :: k in j.fields
    ensures |es| == |keys|
    decreases j, 1, |keys|
  {
    if keys == [] then []
    else Entries(j, keys[..|keys| - 1]) + [Entry(TextKey(keys[|keys| - 1]), Listing(j.fields[keys[|keys| - 1]]))]
  }

  lemma {:induction false} EntryKeys(j: Json, keys: seq<string>)
    requires j.Obj? && forall k <- keys :: k in j.fields
    ensures forall i :: 0 <= i < |keys| ==> Entries(j, keys)[i].key == TextKey(keys[i])
    decreases |keys|
  {
    if keys != [] { EntryKeys(j, keys[..|keys| - 1]); }
  }

  lemma {:induction false} ListingBack(j: Json, depth: nat)
    requires Bounded(j, depth)
    ensures Value(Listing(j)) == j && Fits(Listing(j), depth) && WellFormed(Listing(j))
    decreases j, 2
  {
    match j
    case Arr(items) => ListingsBack(items, depth + 1);
    case Obj(fields) => ObjectBack(j, depth);
    case _ =>
  }

  lemma {:induction false} ObjectBack(j: Json, depth: nat)
    requires j.Obj? && Bounded(j, depth)
    ensures Value(Listing(j)) == j && Fits(Listing(j), depth) && WellFormed(Listing(j))
    decreases j, 1
  {
    var keys := Sorted(j.fields.Keys);
    SortedLength(j.fields.Keys);
    forall k <- j.fields ensures 0 < |k| <= MAX_KEY && Returns(j.fields[k], depth + 1) {
      ListingBack(j.fields[k], depth + 1);
    }
    EntriesBack(j, keys, depth + 1);
    EntriesFit(j, keys, depth + 1);
    ObjectFromEntries(j, keys, Entries(j, keys), depth);
  }

  lemma {:induction false} ObjectFromEntries(j: Json, keys: seq<string>, entries: seq<Entry>, depth: nat)
    requires j.Obj? && |keys| == |j.fields| <= MAX_ITEMS && depth <= MAX_DEPTH
    requires keys == Sorted(j.fields.Keys) && entries == Entries(j, keys)
    requires Part(Fields(entries), keys, j.fields)
    requires forall e <- entries :: KeyFits(e.key) && Fits(e.item, depth + 1) && WellFormed(e.item)
    ensures Value(RawMap(entries)) == j && Fits(RawMap(entries), depth) && WellFormed(RawMap(entries))
  {
    assert Fields(entries) == j.fields;
    DistinctEntries(j, keys, entries);
  }

  lemma {:induction false} DistinctEntries(j: Json, keys: seq<string>, entries: seq<Entry>)
    requires j.Obj? && keys == Sorted(j.fields.Keys) && entries == Entries(j, keys)
    ensures forall a, b :: 0 <= a < b < |entries| ==> entries[a].key != entries[b].key
  {
    EntryKeys(j, keys);
    RisingDistinct(keys);
  }

  lemma RisingDistinct(keys: seq<string>)
    requires forall a, b :: 0 <= a < b < |keys| ==> Before(keys[a], keys[b])
    ensures forall a, b :: 0 <= a < b < |keys| ==> keys[a] != keys[b]
  {
    forall a, b | 0 <= a < b < |keys| ensures keys[a] != keys[b] { BeforeTotal(keys[a], keys[a]); }
  }

  lemma {:induction false} SortedLength(keys: set<string>)
    ensures |Sorted(keys)| == |keys|
    decreases |keys|
  {
    if keys != {} { SortedLength(keys - {First(keys)}); }
  }

  lemma {:induction false} ListingsBack(items: seq<Json>, depth: nat)
    requires forall x <- items :: Bounded(x, depth)
    ensures Values(Listings(items)) == items
    ensures forall v <- Listings(items) :: Fits(v, depth) && WellFormed(v)
    decreases items, 1
  {
    if items != [] {
      var init := items[..|items| - 1];
      ListingsBack(init, depth);
      ListingBack(items[|items| - 1], depth);
      assert Listings(items)[..|items| - 1] == Listings(init);
    }
  }

  /** f is the part of fields with the given keys. */
  ghost predicate Part(f: map<string, Json>, keys: seq<string>, fields: map<string, Json>) {
    && (forall k :: k in f <==> k in keys)
    && (forall k <- keys :: k in fields && f[k] == fields[k])
  }

  lemma PartGrows(f: map<string, Json>, keys: seq<string>, fields: map<string, Json>, last: string)
    requires Part(f, keys, fields) && last in fields
    ensures Part(f[last := fields[last]], keys + [last], fields)
  {
    forall k ensures k in f[last := fields[last]] <==> k in keys + [last] { }
  }

  lemma {:induction false} LastField(init: seq<Entry>, e: Entry)
    ensures Fields(init + [e]) == Fields(init)[KeyText(e.key) := FieldValue(e)]
  {
    assert (init + [e])[..|init|] == init;
  }

  ghost function EntryOf(j: Json, k: string): Entry
    requires j.Obj? && k in j.fields
  {
    Entry(TextKey(k), Listing(j.fields[k]))
  }

  lemma {:induction false} EntriesStep(j: Json, init: seq<string>, last: string)
    requires j.Obj? && (forall k <- init + [last] :: k in j.fields) && (forall k <- init :: k in j.fields) && last in j.fields
    ensures Entries(j, init + [last]) == Entries(j, init) + [EntryOf(j, last)]
  {
    assert (init + [last])[..|init|] == init;
  }

  ghost predicate Returns(j: Json, depth: nat) {
    Value(Listing(j)) == j && Fits(Listing(j), depth) && WellFormed(Listing(j))
  }

  lemma {:induction false} EntriesBack(j: Json, keys: seq<string>, depth: nat)
    requires j.Obj? && (forall k <- keys :: k in j.fields)
    requires forall k <- j.fields :: Returns(j.fields[k], depth)
    ensures Part(Fields(Entries(j, keys)), keys, j.fields)
    decreases |keys|
  {
    if keys != [] {
      var init, last := keys[..|keys| - 1], keys[|keys| - 1];
      assert keys == init + [last] && last in keys;
      assert Returns(j.fields[last], depth);
      EntriesBack(j, init, depth);
      EntriesStep(j, init, last);
      LastField(Entries(j, init), EntryOf(j, last));
      PartGrows(Fields(Entries(j, init)), init, j.fields, last);
    }
  }

  lemma {:induction false} EntriesFit(j: Json, keys: seq<string>, depth: nat)
    requires j.Obj? && (forall k <- keys :: k in j.fields)
    requires forall k <- j.fields :: 0 < |k| <= MAX_KEY && Returns(j.fields[k], depth)
    ensures forall e <- Entries(j, keys) :: KeyFits(e.key) && Fits(e.item, depth) && WellFormed(e.item)
    decreases |keys|
  {
    if keys != [] {
      EntriesFit(j, keys[..|keys| - 1], depth);
      assert keys[|keys| - 1] in keys && Returns(j.fields[keys[|keys| - 1]], depth);
    }
  }

  /** What was accepted once is accepted again, unchanged: the copy is idempotent, and whether any
      form of a value is accepted depends on the value alone. */
  lemma {:induction false} CopyIdempotent(v: Raw)
    requires WellFormed(v) && Fits(v, 0) && Count(v) <= MAX_NODES
    ensures var j := Value(v);
            && Bounded(j, 0) && Nodes(j) == Count(v)
            && Fits(Listing(j), 0) && Count(Listing(j)) == Count(v) && Value(Listing(j)) == j
  {
    CountIsNodes(v, 0);
    FitsIsBounded(v, 0);
    ListingBack(Value(v), 0);
    CountIsNodes(Listing(Value(v)), 0);
  }

  /** A plain object is accepted exactly when it is within the bounds and the node budget. */
  lemma {:induction false} AcceptedObjects(j: Json)
    ensures Bounded(j, 0) && Nodes(j) <= MAX_NODES
            <==> exists v :: WellFormed(v) && Fits(v, 0) && Count(v) <= MAX_NODES && Value(v) == j
  {
    if Bounded(j, 0) && Nodes(j) <= MAX_NODES {
      ListingBack(j, 0);
      CountIsNodes(Listing(j), 0);
    }
    forall v | WellFormed(v) && Fits(v, 0) && Count(v) <= MAX_NODES && Value(v) == j
      ensures Bounded(j, 0) && Nodes(j) <= MAX_NODES
    {
      CopyIdempotent(v);
    }
  }
}
