/** Paginated listing with delimiter roll-up: `list_objects` and the token choice of the two handlers.
    Pages fit together over a whole client run, even when the bucket changes between them. */
module Listing {
  import opened ByteStrings
  import opened Sorting

  /** What a listing shows of an object. */
  datatype Object = Object(key: Bytes, size: nat, etag: Bytes)

  /** The parameters that stay fixed over a client's run; the empty delimiter means none. */
  datatype Query = Query(prefix: Bytes, delimiter: Bytes)

  datatype Item =
    | ObjectItem(entry: Object)
    | PrefixItem(prefix: Bytes)

  datatype Page = Page(
    contents: seq<Object>,
    commonPrefixes: seq<Bytes>,
    truncated: bool,
    nextToken: Option<Bytes>,
    nextPrefixToken: Option<Bytes>)

  // ---- the objects of a bucket, in key order ----

  ghost predicate Ascending(all: seq<Object>) {
    forall i, j :: 0 <= i < j < |all| ==> Lt(all[i].key, all[j].key)
  }

  /** No stored object has an empty key. */
  ghost predicate IsBucket(all: seq<Object>) {
    Ascending(all) && forall o :: o in all ==> o.key != []
  }

  predicate KeyLe(a: Object, b: Object) {
    Le(a.key, b.key)
  }

  ghost predicate DistinctKeys(found: seq<Object>) {
    forall i, j :: 0 <= i < j < |found| ==> found[i].key != found[j].key
  }

  lemma KeyLeIsTotalPreorder()
    ensures TotalPreorder(KeyLe)
  {
    forall a, b ensures KeyLe(a, b) || KeyLe(b, a) { LeTotal(a.key, b.key); }
    forall a, b, c | KeyLe(a, b) && KeyLe(b, c)
      ensures KeyLe(a, c)
    {
      LeTransitive(a.key, b.key, c.key);
    }
  }

  lemma {:induction false} CountedOnce(t: seq<Object>, x: Object)
    requires DistinctKeys(t)
    ensures multiset(t)[x] <= 1
  {
    if t != [] {
      CountedOnce(t[1..], x);
      assert t == [t[0]] + t[1..];
      if x == t[0] { assert x !in t[1..]; }
    }
  }

  lemma CountedTwice(s: seq<Object>, i: nat, j: nat)
    requires i < j < |s| && s[i] == s[j]
    ensures multiset(s)[s[i]] >= 2
  {
    assert s == s[..j] + [s[j]] + s[j + 1..];
    assert s[i] in s[..j];
  }

  lemma SameKeySameObject(t: seq<Object>, a: Object, b: Object)
    requires DistinctKeys(t) && a in multiset(t) && b in multiset(t) && a.key == b.key
    ensures a == b
  {
    var i :| 0 <= i < |t| && t[i] == a;
    var j :| 0 <= j < |t| && t[j] == b;
    assert !(i < j) && !(j < i);
  }

  lemma DistinctSorted(s: seq<Object>, t: seq<Object>)
    requires multiset(s) == multiset(t) && DistinctKeys(t) && Sorted(KeyLe, s)
    ensures Ascending(s)
  {
    forall i, j | 0 <= i < j < |s|
      ensures Lt(s[i].key, s[j].key)
    {
      assert KeyLe(s[i], s[j]);
      CountedOnce(t, s[i]);
      if s[i] == s[j] {
        CountedTwice(s, i, j);
        assert false;
      }
      assert s[i] in multiset(s) && s[j] in multiset(s);
      if s[i].key == s[j].key { SameKeySameObject(t, s[i], s[j]); }
    }
  }

  /** `all_objects`: the metadata found by the directory walk, in the order of its hashed paths, sorted
      by key. The directory of an object is determined by its key, so no key is found twice. */
  method AllObjects(found: seq<Object>) returns (all: seq<Object>)
    requires DistinctKeys(found)
    ensures multiset(all) == multiset(found) && Ascending(all)
  {
    all := Sort(KeyLe, found);
    KeyLeIsTotalPreorder();
    SortSorted(KeyLe, found);
    DistinctSorted(all, found);
  }

  // ---- roll-up ----

  /** The common prefix that a key below the listed prefix rolls up to, if any: up to and with the first
      delimiter after the prefix. */
  function Rollup(q: Query, key: Bytes): (r: Option<Bytes>)
    requires q.prefix <= key
  {
    if q.delimiter == [] then None
    else
      match Find(key[|q.prefix|..], q.delimiter)
      case None => None
      case Some(rel) => Some(key[..|q.prefix| + rel + |q.delimiter|])
  }

  function ItemOf(q: Query, o: Object): Item
    requires q.prefix <= o.key
  {
    match Rollup(q, o.key)
    case None => ObjectItem(o)
    case Some(cp) => PrefixItem(cp)
  }

  /** The position of an item, and the token that resumes after it. */
  function Text(item: Item): Bytes {
    if item.ObjectItem? then item.entry.key else item.prefix
  }

  /** The tests that `list_objects` makes on the start position. */
  predicate Shown(q: Query, start: Bytes, key: Bytes) {
    && q.prefix <= key
    && !(start != [] && Le(key, start))
    && var cp := Rollup(q, key);
       !(cp.Some? && start != [] && Le(cp.value, start) && q.prefix <= start && EndsWith(start, q.delimiter))
  }

  lemma RollupIs(q: Query, key: Bytes, rel: nat)
    requires q.prefix <= key && q.delimiter != [] && Find(key[|q.prefix|..], q.delimiter) == Some(rel)
    ensures |q.prefix| + rel + |q.delimiter| <= |key|
    ensures Rollup(q, key) == Some(key[..|q.prefix| + rel + |q.delimiter|])
  {}

  lemma RollupShape(q: Query, key: Bytes)
    requires q.prefix <= key && Rollup(q, key).Some?
    ensures var cp := Rollup(q, key).value;
      q.prefix <= cp <= key && cp != [] && EndsWith(cp, q.delimiter)
  {
    var n := |q.prefix|;
    FindIsFirst(key[n..], q.delimiter);
    var rel := Find(key[n..], q.delimiter).value;
    var cp := key[..n + rel + |q.delimiter|];
    SliceOfSlice(key, n, |key|, rel, rel + |q.delimiter|);
    assert cp[n + rel..] == key[n + rel..n + rel + |q.delimiter|];
  }

  lemma RollupFrom(q: Query, key: Bytes, pos: nat)
    requires q.prefix <= key && q.delimiter != [] && FirstFrom(key, q.delimiter, |q.prefix|, pos)
    ensures Rollup(q, key) == Some(key[..pos + |q.delimiter|])
  {
    FindInTail(key, q.delimiter, |q.prefix|, pos - |q.prefix|);
    RollupIs(q, key, pos - |q.prefix|);
  }

  lemma RollupPosition(q: Query, key: Bytes) returns (pos: nat)
    requires q.prefix <= key && Rollup(q, key).Some?
    ensures q.delimiter != [] && FirstFrom(key, q.delimiter, |q.prefix|, pos)
    ensures Rollup(q, key) == Some(key[..pos + |q.delimiter|])
  {
    var rel := Find(key[|q.prefix|..], q.delimiter).value;
    pos := |q.prefix| + rel;
    FindInTail(key, q.delimiter, |q.prefix|, rel);
  }

  lemma PrefixOfPrefix(a: Bytes, b: Bytes, c: Bytes)
    requires a <= b && c <= b && |c| <= |a|
    ensures c <= a
  {}

  /** First-occurrence uniqueness: every key that starts with a common prefix rolls up to it. */
  lemma RollupOfExtension(q: Query, key: Bytes, other: Bytes)
    requires q.prefix <= key && Rollup(q, key).Some? && Rollup(q, key).value <= other
    ensures q.prefix <= other && Rollup(q, other) == Rollup(q, key)
  {
    var pos := RollupPosition(q, key);
    var cp := key[..pos + |q.delimiter|];
    PrefixOfPrefix(cp, key, q.prefix);
    FirstFromStable(key, other, q.delimiter, |q.prefix|, pos);
    RollupFrom(q, other, pos);
    assert other[..|cp|] == cp;
  }

  /** A common prefix of a later key that is not after an earlier key is the earlier key's as well. */
  lemma RollupBetween(q: Query, early: Bytes, late: Bytes)
    requires q.prefix <= early && q.prefix <= late && Lt(early, late)
    requires Rollup(q, late).Some? && Le(Rollup(q, late).value, early)
    ensures Rollup(q, early) == Rollup(q, late)
  {
    RollupShape(q, late);
    BetweenPrefix(Rollup(q, late).value, early, late);
    RollupOfExtension(q, late, early);
  }

  lemma TextLe(q: Query, o: Object)
    requires q.prefix <= o.key
    ensures Le(Text(ItemOf(q, o)), o.key)
    ensures q.prefix <= Text(ItemOf(q, o)) <= o.key
    ensures o.key != [] ==> Text(ItemOf(q, o)) != []
  {
    if Rollup(q, o.key).Some? { RollupShape(q, o.key); }
    PrefixLe(Text(ItemOf(q, o)), o.key);
  }

  /** Roll-up keeps the order of keys: it only merges neighbours. */
  lemma ItemMonotone(q: Query, a: Object, b: Object)
    requires q.prefix <= a.key && q.prefix <= b.key && Lt(a.key, b.key)
    ensures ItemOf(q, a) == ItemOf(q, b) || Lt(Text(ItemOf(q, a)), Text(ItemOf(q, b)))
  {
    TextLe(q, a);
    var x, y := Text(ItemOf(q, a)), Text(ItemOf(q, b));
    if Rollup(q, b.key).None? {
      LtTransitive(x, a.key, b.key);
    } else if Le(y, a.key) {
      RollupBetween(q, a.key, b.key);
    } else {
      LeTotal(y, a.key);
      assert a.key != y by { LeReflexive(y); }
      LtTransitive(x, a.key, y);
    }
  }

  // ---- the resume rule ----

  /** A token as the handlers give it out: the position of an item of an earlier page. The object it was
      made from may be gone. */
  ghost predicate IsToken(q: Query, t: Bytes) {
    exists o: Object :: o.key != [] && q.prefix <= o.key && t == Text(ItemOf(q, o))
  }

  /** For a token, the tests on the start position drop exactly the keys whose item is not after it. */
  lemma ResumeRule(q: Query, t: Bytes, o: Object)
    requires IsToken(q, t) && q.prefix <= o.key
    ensures Shown(q, t, o.key) <==> Lt(t, Text(ItemOf(q, o)))
  {
    var from: Object :| from.key != [] && q.prefix <= from.key && t == Text(ItemOf(q, from));
    TextLe(q, from);
    TextLe(q, o);
    LeTotal(t, o.key);
    var cp := Rollup(q, o.key);
    if cp.None? {
      if Le(o.key, t) && Le(t, o.key) { LeAntisymmetric(t, o.key); }
    } else {
      LeTotal(cp.value, t);
      if Le(cp.value, t) && Le(t, cp.value) { LeAntisymmetric(t, cp.value); }
      if Lt(t, cp.value) {
        LtTransitive(t, cp.value, o.key);
        if Le(o.key, t) { LeAntisymmetric(t, o.key); }
      } else if Rollup(q, from.key).Some? {
        RollupShape(q, from.key);
      } else if !Le(o.key, t) {
        // the token is an object's key between the common prefix and the key
        RollupBetween(q, t, o.key);
      }
    }
  }

  /** The start position is the common prefix of a key, or lies inside that group and ends with a delimiter. */
  predicate SkipsGroup(q: Query, start: Bytes, key: Bytes)
    requires q.prefix <= key
  {
    && q.prefix <= start && EndsWith(start, q.delimiter)
    && Rollup(q, key).Some? && Rollup(q, start) == Rollup(q, key)
  }

  /** A key lies behind a start position that a client has chosen. */
  predicate Behind(q: Query, start: Bytes, key: Bytes)
    requires q.prefix <= key
  {
    start == [] || (Lt(start, key) && !SkipsGroup(q, start, key))
  }

  /** For any start position, token or not, the tests show the keys after it, except those of the group that the
      start position itself belongs to when it ends with a delimiter. */
  lemma StartRule(q: Query, start: Bytes, key: Bytes)
    requires q.prefix <= key
    ensures Shown(q, start, key) <==> Behind(q, start, key)
  {
    if start != [] {
      LeTotal(start, key);
      if Le(key, start) && Le(start, key) { LeAntisymmetric(start, key); }
      var cp := Rollup(q, key);
      if cp.Some? && q.prefix <= start && Lt(start, key) {
        if Le(cp.value, start) {
          RollupBetween(q, start, key);
        } else if Rollup(q, start) == cp {
          RollupShape(q, start);
          PrefixLe(cp.value, start);
        }
      }
    }
  }

  lemma TwoKeysOfGroup(q: Query, start: Bytes, key: Bytes)
    requires q == Query([], [47]) && start == [97, 47, 98, 47] && key == [97, 47, 99]
    ensures Rollup(q, start) == Some([97, 47]) && Rollup(q, key) == Some([97, 47])
  {
    assert FirstFrom(start, [47], 0, 1) by { assert start[1..2] == [47] && start[0..1] == [97]; }
    assert FirstFrom(key, [47], 0, 1) by { assert key[1..2] == [47] && key[0..1] == [97]; }
    RollupFrom(q, start, 1);
    RollupFrom(q, key, 1);
    assert start[..2] == [97, 47] == key[..2];
  }

  /** A start position `a/b/` with delimiter `/` skips the rest of the group `a/`: the key `a/c` lies after it and
      is not shown. */
  lemma StartInsideGroup()
    ensures var q, start, key := Query([], Ascii("/")), Ascii("a/b/"), Ascii("a/c");
      Lt(start, key) && Rollup(q, key) == Some(Ascii("a/")) && !Shown(q, start, key)
  {
    var q, start, key := Query([], [47]), [97, 47, 98, 47], [97, 47, 99];
    assert Ascii("/") == [47] && Ascii("a/b/") == start && Ascii("a/c") == key && Ascii("a/") == [97, 47];
    TwoKeysOfGroup(q, start, key);
    assert Le(start[2..], key[2..]);
    assert Le(start[1..], key[1..]) by { assert start[1..][1..] == start[2..] && key[1..][1..] == key[2..]; }
    assert EndsWith(start, [47]) by { assert start[3..] == [47]; }
    StartRule(q, start, key);
  }

  // ---- the one-shot roll-up ----

  /** The items of a listing: what is shown, each common prefix once. */
  function Items(q: Query, start: Bytes, all: seq<Object>): seq<Item> {
    if all == [] then []
    else
      var o := all[|all| - 1];
      var before := Items(q, start, all[..|all| - 1]);
      if !Shown(q, start, o.key) || ItemOf(q, o) in before then before else before + [ItemOf(q, o)]
  }

  ghost predicate InOrder(items: seq<Item>) {
    forall i, j :: 0 <= i < j < |items| ==> Lt(Text(items[i]), Text(items[j]))
  }

  /** `item` is what object `o` of a listing is shown as. */
  predicate Shows(q: Query, start: Bytes, o: Object, item: Item) {
    Shown(q, start, o.key) && ItemOf(q, o) == item
  }

  /** What a listing is, without saying how it is computed: the items of the shown objects, all of them
      and no others, in strictly ascending order of position. */
  ghost predicate IsListing(q: Query, start: Bytes, all: seq<Object>, items: seq<Item>) {
    && InOrder(items)
    && (forall o :: o in all && Shown(q, start, o.key) ==> ItemOf(q, o) in items)
    && (forall item :: item in items ==> exists o :: o in all && Shows(q, start, o, item))
  }

  lemma ListingSnoc(q: Query, start: Bytes, init: seq<Object>, o: Object, before: seq<Item>)
    requires Ascending(init + [o]) && IsListing(q, start, init, before)
    requires Shown(q, start, o.key) && ItemOf(q, o) !in before
    ensures InOrder(before + [ItemOf(q, o)])
  {
    forall i | 0 <= i < |before|
      ensures Lt(Text(before[i]), Text(ItemOf(q, o)))
    {
      assert before[i] in before;
      var p :| p in init && Shows(q, start, p, before[i]);
      var k :| 0 <= k < |init| && init[k] == p;
      assert Lt((init + [o])[k].key, (init + [o])[|init|].key);
      ItemMonotone(q, p, o);
    }
  }

  lemma {:induction false} ItemsAreListing(q: Query, start: Bytes, all: seq<Object>)
    requires Ascending(all)
    ensures IsListing(q, start, all, Items(q, start, all))
  {
    if all != [] {
      var n := |all| - 1;
      var init, o := all[..n], all[n];
      var before := Items(q, start, init);
      ItemsAreListing(q, start, init);
      assert all == init + [o];
      if Shown(q, start, o.key) && ItemOf(q, o) !in before {
        ListingSnoc(q, start, init, o, before);
      }
      forall item | item in Items(q, start, all)
        ensures exists p :: p in all && Shows(q, start, p, item)
      {
        if item in before {
          var p :| p in init && Shows(q, start, p, item);
          assert p in all && Shows(q, start, p, item);
        } else {
          assert o in all && Shows(q, start, o, item);
        }
      }
    }
  }

  lemma {:induction false} InOrderUnique(a: seq<Item>, b: seq<Item>)
    requires InOrder(a) && InOrder(b)
    requires forall x :: x in a <==> x in b
    ensures a == b
  {
    assert b != [] ==> b[0] in a;
    assert a != [] ==> a[0] in b;
    if a != [] {
      var j :| 0 <= j < |b| && b[j] == a[0];
      var k :| 0 <= k < |a| && a[k] == b[0];
      if j > 0 && k > 0 { LeAntisymmetric(Text(a[0]), Text(b[0])); }
      assert a[0] == b[0];
      assert a == [a[0]] + a[1..] && b == [b[0]] + b[1..];
      forall x ensures x in a[1..] <==> x in b[1..] {
        if x in a[1..] { assert x in b && x != a[0]; }
        if x in b[1..] { assert x in a && x != b[0]; }
      }
      InOrderUnique(a[1..], b[1..]);
    }
  }

  lemma ListedAsShown(q: Query, start: Bytes, all: seq<Object>, items: seq<Item>, item: Item)
    requires IsListing(q, start, all, items)
    ensures item in items <==> exists o :: o in all && Shows(q, start, o, item)
  {}

  /** There is only one such listing. */
  lemma ListingUnique(q: Query, start: Bytes, all: seq<Object>, a: seq<Item>, b: seq<Item>)
    requires IsListing(q, start, all, a) && IsListing(q, start, all, b)
    ensures a == b
  {
    forall item ensures item in a <==> item in b {
      ListedAsShown(q, start, all, a, item);
      ListedAsShown(q, start, all, b, item);
    }
    InOrderUnique(a, b);
  }

  lemma {:induction false} ItemsGrow(q: Query, start: Bytes, all: seq<Object>, n: nat)
    requires n <= |all|
    ensures Items(q, start, all[..n]) <= Items(q, start, all)
  {
    if n < |all| {
      ItemsGrow(q, start, all[..|all| - 1], n);
      assert all[..|all| - 1][..n] == all[..n];
    } else {
      assert all[..n] == all;
    }
  }

  // ---- one page ----

  function ObjectsOf(items: seq<Item>): seq<Object> {
    if items == [] then []
    else
      var last := items[|items| - 1];
      ObjectsOf(items[..|items| - 1]) + (if last.ObjectItem? then [last.entry] else [])
  }

  function PrefixesOf(items: seq<Item>): seq<Bytes> {
    if items == [] then []
    else
      var last := items[|items| - 1];
      PrefixesOf(items[..|items| - 1]) + (if last.PrefixItem? then [last.prefix] else [])
  }

  function Take(items: seq<Item>, max: nat): (shown: seq<Item>)
    ensures shown <= items && |shown| <= max
  {
    items[..if max < |items| then max else |items|]
  }

  /** The page made of the first `max` of the items that are left. */
  function PageOf(items: seq<Item>, max: nat): Page {
    var shown := Take(items, max);
    var truncated := max < |items|;
    var last := if truncated && max > 0 then Some(shown[max - 1]) else None;
    Page(ObjectsOf(shown), PrefixesOf(shown), truncated,
         if last.Some? && last.value.ObjectItem? then Some(Text(last.value)) else None,
         if last.Some? && last.value.PrefixItem? then Some(Text(last.value)) else None)
  }

  lemma PagePrefixes(items: seq<Item>, cp: Bytes)
    ensures cp in PrefixesOf(items) <==> PrefixItem(cp) in items
  {
    if items != [] {
      PagePrefixes(items[..|items| - 1], cp);
      assert items == items[..|items| - 1] + [items[|items| - 1]];
    }
  }

  lemma LtNotLe(a: Bytes, b: Bytes)
    requires Lt(a, b)
    ensures !Le(b, a)
  {
    if Le(b, a) { LeAntisymmetric(a, b); }
  }

  /** In a page, as in the response document, common prefixes are in ascending order. */
  lemma {:induction false} InsertLargest(cp: Bytes, prefixes: seq<Bytes>)
    requires forall p :: p in prefixes ==> Lt(p, cp)
    ensures Insert(Le, cp, prefixes) == prefixes + [cp]
  {
    if prefixes != [] {
      assert prefixes[0] in prefixes;
      LtNotLe(prefixes[0], cp);
      assert forall p :: p in prefixes[1..] ==> p in prefixes;
      InsertLargest(cp, prefixes[1..]);
      assert prefixes == [prefixes[0]] + prefixes[1..];
    }
  }

  lemma NextPrefixLargest(q: Query, start: Bytes, init: seq<Object>, o: Object)
    requires Ascending(init + [o]) && Shown(q, start, o.key) && Rollup(q, o.key).Some?
    requires ItemOf(q, o) !in Items(q, start, init)
    ensures Insert(Le, Rollup(q, o.key).value, PrefixesOf(Items(q, start, init)))
      == PrefixesOf(Items(q, start, init)) + [Rollup(q, o.key).value]
  {
    var before := Items(q, start, init);
    assert forall i, j :: 0 <= i < j < |init| ==> (init + [o])[i] == init[i] && (init + [o])[j] == init[j];
    ItemsAreListing(q, start, init);
    ListingSnoc(q, start, init, o, before);
    var cp := Rollup(q, o.key).value;
    forall p | p in PrefixesOf(before)
      ensures Lt(p, cp)
    {
      PagePrefixes(before, p);
      var i :| 0 <= i < |before| && before[i] == PrefixItem(p);
      assert Lt(Text((before + [ItemOf(q, o)])[i]), Text((before + [ItemOf(q, o)])[|before|]));
    }
    InsertLargest(cp, PrefixesOf(before));
  }

  lemma NewObjectIsNew(q: Query, start: Bytes, init: seq<Object>, o: Object)
    requires Ascending(init + [o])
    ensures ObjectItem(o) !in Items(q, start, init)
  {
    assert forall i, j :: 0 <= i < j < |init| ==> (init + [o])[i] == init[i] && (init + [o])[j] == init[j];
    ItemsAreListing(q, start, init);
    forall item | item in Items(q, start, init)
      ensures item != ObjectItem(o)
    {
      var p :| p in init && Shows(q, start, p, item);
      var k :| 0 <= k < |init| && init[k] == p;
      assert Lt((init + [o])[k].key, (init + [o])[|init|].key);
    }
  }

  /** What the variables of the loop have gathered from the items so far. */
  function Gathered(items: seq<Item>): Page {
    var last := if items == [] then None else Some(items[|items| - 1]);
    Page(ObjectsOf(items), PrefixesOf(items), false,
         if last.Some? && last.value.ObjectItem? then Some(Text(last.value)) else None,
         if last.Some? && last.value.PrefixItem? then Some(Text(last.value)) else None)
  }

  lemma GatherObject(items: seq<Item>, o: Object, page: Page)
    requires page == Gathered(items)
    ensures Gathered(items + [ObjectItem(o)])
      == Page(page.contents + [o], page.commonPrefixes, false, Some(o.key), None)
  {
    assert (items + [ObjectItem(o)])[..|items|] == items;
  }

  lemma GatherPrefix(items: seq<Item>, cp: Bytes, page: Page)
    requires page == Gathered(items)
    ensures Gathered(items + [PrefixItem(cp)]) == Page(page.contents, page.commonPrefixes + [cp], false, None, Some(cp))
  {
    assert (items + [PrefixItem(cp)])[..|items|] == items;
  }

  /** The loop passes over an object that is not shown, or whose common prefix it has already. */
  predicate Passes(q: Query, start: Bytes, o: Object, prefixes: seq<Bytes>) {
    !Shown(q, start, o.key) || (Rollup(q, o.key).Some? && Rollup(q, o.key).value in prefixes)
  }

  /** What the loop makes of object `o` when it has `seen` items: `next`. */
  ghost predicate StepOf(q: Query, start: Bytes, seen: seq<Item>, o: Object, next: seq<Item>) {
    if Passes(q, start, o, PrefixesOf(seen)) then next == seen
    else if Rollup(q, o.key).None? then next == seen + [ObjectItem(o)]
    else
      var cp := Rollup(q, o.key).value;
      next == seen + [PrefixItem(cp)] && Insert(Le, cp, PrefixesOf(seen)) == PrefixesOf(seen) + [cp]
  }

  lemma ItemsStep(q: Query, start: Bytes, all: seq<Object>, i: nat, seen: seq<Item>, o: Object, next: seq<Item>)
    requires Ascending(all) && i < |all| && seen == Items(q, start, all[..i]) && o == all[i]
    requires next == Items(q, start, all[..i + 1])
    ensures StepOf(q, start, seen, o, next)
  {
    assert all[..i + 1] == all[..i] + [o];
    assert all[..i + 1][..i] == all[..i];
    if Shown(q, start, o.key) {
      if Rollup(q, o.key).None? {
        NewObjectIsNew(q, start, all[..i], o);
      } else {
        PagePrefixes(seen, Rollup(q, o.key).value);
        if ItemOf(q, o) !in seen { NextPrefixLargest(q, start, all[..i], o); }
      }
    }
  }

  /** The items after each number of objects, ending with those of the whole listing. */
  lemma AllSteps(q: Query, start: Bytes, all: seq<Object>) returns (upTo: seq<seq<Item>>)
    requires Ascending(all)
    ensures |upTo| == |all| + 1 && upTo[0] == [] && upTo[|all|] == Items(q, start, all)
    ensures forall i :: 0 <= i < |all| ==> StepOf(q, start, upTo[i], all[i], upTo[i + 1])
    ensures forall i :: 0 <= i <= |all| ==> upTo[i] <= upTo[|all|]
  {
    upTo := seq(|all| + 1, i requires 0 <= i <= |all| => Items(q, start, all[..i]));
    forall i | 0 <= i < |all|
      ensures StepOf(q, start, upTo[i], all[i], upTo[i + 1])
    {
      ItemsStep(q, start, all, i, upTo[i], all[i], upTo[i + 1]);
    }
    assert all[..|all|] == all;
    forall i | 0 <= i <= |all|
      ensures upTo[i] <= upTo[|all|]
    {
      ItemsGrow(q, start, all, i);
    }
  }

  /** What has been gathered when the loop is left, early or at its end, is the page. */
  lemma PageReady(items: seq<Item>, seen: seq<Item>, page: Page, truncated: bool, max: nat)
    requires page == Gathered(seen) && |seen| <= max
    requires if truncated then seen < items && |seen| == max else seen == items
    ensures PageOf(items, max)
      == Page(page.contents, page.commonPrefixes, truncated,
              if truncated then page.nextToken else None, if truncated then page.nextPrefixToken else None)
  {
    assert Take(items, max) == seen;
  }

  // ---- what a page is, without saying how it is computed ----

  /** Object `o` is on the page: itself, or its common prefix. */
  predicate OnPage(q: Query, page: Page, o: Object)
    requires q.prefix <= o.key
  {
    match Rollup(q, o.key)
    case None => o in page.contents
    case Some(cp) => cp in page.commonPrefixes
  }

  /** Everything on the page comes before position `t`. */
  ghost predicate EndsBefore(page: Page, t: Bytes) {
    (forall o :: o in page.contents ==> Lt(o.key, t)) && (forall cp :: cp in page.commonPrefixes ==> Lt(cp, t))
  }

  /** `t` is the last position on the page. */
  ghost predicate EndsAt(page: Page, t: Bytes) {
    (forall o :: o in page.contents ==> Le(o.key, t)) && (forall cp :: cp in page.commonPrefixes ==> Le(cp, t))
  }

  ghost predicate PageAscending(page: Page) {
    && (forall i, j :: 0 <= i < j < |page.contents| ==> Lt(page.contents[i].key, page.contents[j].key))
    && (forall i, j :: 0 <= i < j < |page.commonPrefixes| ==> Lt(page.commonPrefixes[i], page.commonPrefixes[j]))
  }

  /** Nothing is on the page that is not shown: objects as they are in the bucket, and common prefixes of some. */
  ghost predicate PageSound(q: Query, start: Bytes, all: seq<Object>, page: Page) {
    && (forall o :: o in page.contents ==> o in all && Shown(q, start, o.key) && Rollup(q, o.key).None?)
    && (forall cp :: cp in page.commonPrefixes ==>
          exists o :: o in all && Shown(q, start, o.key) && Rollup(q, o.key) == Some(cp))
  }

  /** Shown objects that are not on the page come behind all that is, and there are some only if it is truncated. */
  ghost predicate PageComplete(q: Query, start: Bytes, all: seq<Object>, page: Page) {
    && (forall o :: o in all && Shown(q, start, o.key) ==>
          OnPage(q, page, o) || (page.truncated && EndsBefore(page, Text(ItemOf(q, o)))))
    && (page.truncated ==> exists o :: o in all && Shown(q, start, o.key) && !OnPage(q, page, o))
  }

  /** A truncated page is full, and has the last position on it as its one token, unless it is empty. */
  ghost predicate PageBounded(page: Page, max: nat) {
    && |page.contents| + |page.commonPrefixes| <= max
    && (page.truncated ==> |page.contents| + |page.commonPrefixes| == max)
    && (page.nextToken.Some? || page.nextPrefixToken.Some? <==> page.truncated && max > 0)
    && !(page.nextToken.Some? && page.nextPrefixToken.Some?)
    && (page.nextToken.Some? ==>
          EndsAt(page, page.nextToken.value) && exists o :: o in page.contents && o.key == page.nextToken.value)
    && (page.nextPrefixToken.Some? ==>
          EndsAt(page, page.nextPrefixToken.value) && page.nextPrefixToken.value in page.commonPrefixes)
  }

  ghost predicate IsPage(q: Query, start: Bytes, all: seq<Object>, max: nat, page: Page) {
    PageAscending(page) && PageSound(q, start, all, page) && PageComplete(q, start, all, page) && PageBounded(page, max)
  }

  lemma {:induction false} PageObjects(items: seq<Item>, o: Object)
    ensures o in ObjectsOf(items) <==> ObjectItem(o) in items
  {
    if items != [] {
      PageObjects(items[..|items| - 1], o);
      assert items == items[..|items| - 1] + [items[|items| - 1]];
    }
  }

  lemma {:induction false} PageCounts(items: seq<Item>)
    ensures |ObjectsOf(items)| + |PrefixesOf(items)| == |items|
  {
    if items != [] { PageCounts(items[..|items| - 1]); }
  }

  lemma {:induction false} PageInOrder(items: seq<Item>)
    requires InOrder(items)
    ensures forall i, j :: 0 <= i < j < |ObjectsOf(items)| ==> Lt(ObjectsOf(items)[i].key, ObjectsOf(items)[j].key)
    ensures forall i, j :: 0 <= i < j < |PrefixesOf(items)| ==> Lt(PrefixesOf(items)[i], PrefixesOf(items)[j])
  {
    if items != [] {
      var init, last := items[..|items| - 1], items[|items| - 1];
      PageInOrder(init);
      forall o | o in ObjectsOf(init)
        ensures Lt(o.key, Text(last))
      {
        PageObjects(init, o);
        var k :| 0 <= k < |init| && init[k] == ObjectItem(o);
        assert Lt(Text(items[k]), Text(items[|items| - 1]));
      }
      forall cp | cp in PrefixesOf(init)
        ensures Lt(cp, Text(last))
      {
        PagePrefixes(init, cp);
        var k :| 0 <= k < |init| && init[k] == PrefixItem(cp);
        assert Lt(Text(items[k]), Text(items[|items| - 1]));
      }
    }
  }

  lemma ShownIsOnPage(q: Query, o: Object, items: seq<Item>, page: Page)
    requires q.prefix <= o.key && page.contents == ObjectsOf(items) && page.commonPrefixes == PrefixesOf(items)
    ensures OnPage(q, page, o) <==> ItemOf(q, o) in items
  {
    match Rollup(q, o.key)
    case None => PageObjects(items, o);
    case Some(cp) => PagePrefixes(items, cp);
  }

  /** Where all of the items come before a position, so does the page. */
  lemma PageEnds(items: seq<Item>, page: Page, t: Bytes)
    requires page.contents == ObjectsOf(items) && page.commonPrefixes == PrefixesOf(items)
    ensures (forall item :: item in items ==> Lt(Text(item), t)) ==> EndsBefore(page, t)
    ensures (forall item :: item in items ==> Le(Text(item), t)) ==> EndsAt(page, t)
  {
    forall o | o in page.contents
      ensures ObjectItem(o) in items && Text(ObjectItem(o)) == o.key
    {
      PageObjects(items, o);
    }
    forall cp | cp in page.commonPrefixes
      ensures PrefixItem(cp) in items && Text(PrefixItem(cp)) == cp
    {
      PagePrefixes(items, cp);
    }
  }

  lemma PageIsSound(q: Query, start: Bytes, all: seq<Object>, items: seq<Item>, max: nat)
    requires IsListing(q, start, all, items)
    ensures PageSound(q, start, all, PageOf(items, max))
  {
    var shown, page := Take(items, max), PageOf(items, max);
    forall o | o in page.contents
      ensures o in all && Shown(q, start, o.key) && Rollup(q, o.key).None?
    {
      PageObjects(shown, o);
      assert ObjectItem(o) in items;
      var p :| p in all && Shows(q, start, p, ObjectItem(o));
    }
    forall cp | cp in page.commonPrefixes
      ensures exists o :: o in all && Shown(q, start, o.key) && Rollup(q, o.key) == Some(cp)
    {
      PagePrefixes(shown, cp);
      assert PrefixItem(cp) in items;
      var p :| p in all && Shows(q, start, p, PrefixItem(cp));
      assert p in all && Shown(q, start, p.key) && Rollup(q, p.key) == Some(cp);
    }
  }

  lemma TakenAt(items: seq<Item>, max: nat, k: nat)
    requires k < |items|
    ensures k < max ==> items[k] in Take(items, max)
  {
    if k < max { assert Take(items, max)[k] == items[k]; }
  }

  lemma BehindTaken(items: seq<Item>, max: nat, item: Item)
    requires InOrder(items) && item in items && item !in Take(items, max)
    ensures max < |items| && forall x :: x in Take(items, max) ==> Lt(Text(x), Text(item))
  {
    var shown := Take(items, max);
    var k :| 0 <= k < |items| && items[k] == item;
    TakenAt(items, max, k);
    forall x | x in shown
      ensures Lt(Text(x), Text(item))
    {
      var j :| 0 <= j < |shown| && shown[j] == x;
      assert items[j] == x;
    }
  }

  lemma NotTaken(items: seq<Item>, max: nat)
    requires InOrder(items) && max < |items|
    ensures items[max] !in Take(items, max)
  {
    forall j | 0 <= j < max
      ensures Take(items, max)[j] != items[max]
    {
      assert Lt(Text(items[j]), Text(items[max]));
    }
  }

  lemma PageIsComplete(q: Query, start: Bytes, all: seq<Object>, items: seq<Item>, max: nat)
    requires IsListing(q, start, all, items)
    ensures PageComplete(q, start, all, PageOf(items, max))
  {
    var shown, page := Take(items, max), PageOf(items, max);
    forall o | o in all && Shown(q, start, o.key)
      ensures OnPage(q, page, o) || (page.truncated && EndsBefore(page, Text(ItemOf(q, o))))
    {
      ShownIsOnPage(q, o, shown, page);
      if ItemOf(q, o) !in shown {
        BehindTaken(items, max, ItemOf(q, o));
        PageEnds(shown, page, Text(ItemOf(q, o)));
      }
    }
    if page.truncated { MoreToShow(q, start, all, items, max); }
  }

  lemma MoreToShow(q: Query, start: Bytes, all: seq<Object>, items: seq<Item>, max: nat)
    requires IsListing(q, start, all, items) && max < |items|
    ensures exists o :: o in all && Shown(q, start, o.key) && !OnPage(q, PageOf(items, max), o)
  {
    assert items[max] in items;
    var o :| o in all && Shows(q, start, o, items[max]);
    NotTaken(items, max);
    ShownIsOnPage(q, o, Take(items, max), PageOf(items, max));
    assert o in all && Shown(q, start, o.key) && !OnPage(q, PageOf(items, max), o);
  }

  lemma LastIsLargest(items: seq<Item>)
    requires InOrder(items) && items != []
    ensures forall x :: x in items ==> Le(Text(x), Text(items[|items| - 1]))
  {
    LeReflexive(Text(items[|items| - 1]));
    forall x | x in items
      ensures Le(Text(x), Text(items[|items| - 1]))
    {
      var j :| 0 <= j < |items| && items[j] == x;
      if j < |items| - 1 { assert Lt(Text(items[j]), Text(items[|items| - 1])); }
    }
  }

  lemma TokensOnPage(shown: seq<Item>, page: Page)
    requires InOrder(shown) && shown != []
    requires page.contents == ObjectsOf(shown) && page.commonPrefixes == PrefixesOf(shown)
    ensures var last := shown[|shown| - 1];
      && EndsAt(page, Text(last))
      && (last.ObjectItem? ==> last.entry in page.contents)
      && (last.PrefixItem? ==> last.prefix in page.commonPrefixes)
  {
    var last := shown[|shown| - 1];
    LastIsLargest(shown);
    PageEnds(shown, page, Text(last));
    match last
    case ObjectItem(o) => PageObjects(shown, o);
    case PrefixItem(cp) => PagePrefixes(shown, cp);
  }

  lemma PageIsBounded(items: seq<Item>, max: nat)
    requires InOrder(items)
    ensures PageBounded(PageOf(items, max), max)
  {
    var shown, page := Take(items, max), PageOf(items, max);
    PageCounts(shown);
    if page.truncated && max > 0 { TokensOnPage(shown, page); }
  }

  lemma PageIsPage(q: Query, start: Bytes, all: seq<Object>, max: nat)
    requires Ascending(all)
    ensures IsPage(q, start, all, max, PageOf(Items(q, start, all), max))
  {
    var items := Items(q, start, all);
    ItemsAreListing(q, start, all);
    PageInOrder(Take(items, max));
    PageIsSound(q, start, all, items, max);
    PageIsComplete(q, start, all, items, max);
    PageIsBounded(items, max);
  }

  /** The page and the items of a run say the same: what a client is shown is what is on the page. */
  lemma PageShowsItems(items: seq<Item>, max: nat)
    requires InOrder(items)
    ensures var page, shown := PageOf(items, max), Take(items, max);
      && (forall o :: o in page.contents <==> ObjectItem(o) in shown)
      && (forall cp :: cp in page.commonPrefixes <==> PrefixItem(cp) in shown)
      && PageAscending(page) && |page.contents| + |page.commonPrefixes| == |shown|
  {
    var shown := Take(items, max);
    PageInOrder(shown);
    PageCounts(shown);
    forall o ensures o in ObjectsOf(shown) <==> ObjectItem(o) in shown { PageObjects(shown, o); }
    forall cp ensures cp in PrefixesOf(shown) <==> PrefixItem(cp) in shown { PagePrefixes(shown, cp); }
  }

  /** The tests on one object, and the common prefix it is then shown as. */
  method Examine(o: Object, q: Query, start: Bytes, prefixes: seq<Bytes>) returns (pass: bool, cp: Option<Bytes>)
    ensures pass <==> Passes(q, start, o, prefixes)
    ensures !pass ==> q.prefix <= o.key && cp == Rollup(q, o.key)
  {
    pass, cp := true, None;
    if !(q.prefix <= o.key) { return; }
    if start != [] && Le(o.key, start) { return; }
    cp := Rollup(q, o.key);
    if cp.Some? {
      if cp.value in prefixes { return; }
      if start != [] && Le(cp.value, start) && q.prefix <= start && EndsWith(start, q.delimiter) { return; }
    }
    pass := false;
  }

  /** `list_objects`: one pass with deduplication, skipping and an early exit gives exactly the first
      `maxKeys` items after the start position, and tells exactly whether there are more. */
  method ListObjects(all: seq<Object>, q: Query, start: Bytes, maxKeys: nat) returns (page: Page)
    requires Ascending(all)
    ensures page == PageOf(Items(q, start, all), maxKeys)
    ensures IsPage(q, start, all, maxKeys, page)
  {
    PageIsPage(q, start, all, maxKeys);
    var contents: seq<Object>, prefixes: seq<Bytes> := [], [];
    var truncated, count, i := false, 0, 0;
    var nextToken: Option<Bytes>, nextPrefixToken: Option<Bytes> := None, None;
    ghost var upTo := AllSteps(q, start, all);
    while i < |all|
      invariant 0 <= i <= |all| && !truncated
      invariant count == |upTo[i]| <= maxKeys
      invariant Page(contents, prefixes, false, nextToken, nextPrefixToken) == Gathered(upTo[i])
    {
      var o := all[i];
      ghost var seen, page := upTo[i], Page(contents, prefixes, false, nextToken, nextPrefixToken);
      assert StepOf(q, start, seen, o, upTo[i + 1]);
      i := i + 1;
      var pass, item := Examine(o, q, start, prefixes);
      if pass { continue; }
      if count >= maxKeys {
        truncated := true;
        break;
      }
      count := count + 1;
      match item {
        case Some(cp) =>
          GatherPrefix(seen, cp, page);
          prefixes, nextPrefixToken, nextToken := Insert(Le, cp, prefixes), Some(cp), None;
        case None =>
          GatherObject(seen, o, page);
          contents, nextToken, nextPrefixToken := contents + [o], Some(o.key), None;
      }
    }
    ghost var seen := upTo[if truncated then i - 1 else i];
    PageReady(upTo[|all|], seen, Page(contents, prefixes, false, nextToken, nextPrefixToken), truncated, maxKeys);
    page := Page(contents, prefixes, truncated,
                 if truncated then nextToken else None, if truncated then nextPrefixToken else None);
  }

  // ---- a client's run over a changing bucket ----

  /** The token choice of both handlers: `next_prefix_token.or(next_token)`. */
  function NextToken(page: Page): Option<Bytes> {
    if page.nextPrefixToken.Some? then page.nextPrefixToken else page.nextToken
  }

  /** One request of a client: the objects the server found then, and the page size. */
  datatype Visit = Visit(all: seq<Object>, maxKeys: nat)

  ghost predicate AreVisits(visits: seq<Visit>) {
    forall v :: v in visits ==> IsBucket(v.all) && v.maxKeys >= 1
  }

  function FirstItems(q: Query, start: Bytes, v: Visit): seq<Item> {
    Take(Items(q, start, v.all), v.maxKeys)
  }

  function FirstPage(q: Query, start: Bytes, v: Visit): Page {
    PageOf(Items(q, start, v.all), v.maxKeys)
  }

  /** The start position of the next request: the token of the page (empty if there is none). */
  function Resume(q: Query, start: Bytes, v: Visit): Bytes {
    var token := NextToken(FirstPage(q, start, v));
    if token.Some? then token.value else []
  }

  /** Everything a client is shown that starts at `start` and follows the tokens. */
  function RunItems(q: Query, start: Bytes, visits: seq<Visit>): seq<Item>
    decreases |visits|
  {
    if visits == [] then []
    else
      FirstItems(q, start, visits[0])
        + if FirstPage(q, start, visits[0]).truncated then RunItems(q, Resume(q, start, visits[0]), visits[1..]) else []
  }

  /** The run got to a page that is not truncated. */
  predicate Finished(q: Query, start: Bytes, visits: seq<Visit>)
    decreases |visits|
  {
    visits != []
    && (!FirstPage(q, start, visits[0]).truncated || Finished(q, Resume(q, start, visits[0]), visits[1..]))
  }

  lemma PageToken(items: seq<Item>, max: nat)
    requires 1 <= max < |items|
    ensures NextToken(PageOf(items, max)) == Some(Text(items[max - 1]))
  {}

  lemma ResumesAt(q: Query, start: Bytes, v: Visit, items: seq<Item>)
    requires v.maxKeys >= 1 && FirstPage(q, start, v).truncated && items == Items(q, start, v.all)
    ensures v.maxKeys < |items| && Resume(q, start, v) == Text(items[v.maxKeys - 1])
  {
    PageToken(items, v.maxKeys);
  }

  lemma ListedIsToken(q: Query, start: Bytes, all: seq<Object>, item: Item)
    requires IsBucket(all) && item in Items(q, start, all)
    ensures IsToken(q, Text(item))
  {
    ItemsAreListing(q, start, all);
    var o :| o in all && Shows(q, start, o, item);
    assert o.key != [] && q.prefix <= o.key;
  }

  /** The token of a truncated page is the position of the last item shown. */
  lemma TokenOfPage(q: Query, start: Bytes, v: Visit)
    requires IsBucket(v.all) && v.maxKeys >= 1 && FirstPage(q, start, v).truncated
    ensures v.maxKeys < |Items(q, start, v.all)|
    ensures Resume(q, start, v) == Text(Items(q, start, v.all)[v.maxKeys - 1])
    ensures IsToken(q, Resume(q, start, v))
  {
    var items := Items(q, start, v.all);
    ResumesAt(q, start, v, items);
    ListedIsToken(q, start, v.all, items[v.maxKeys - 1]);
  }

  /** A truncated page has a token just if it shows anything; with page size 0 it has none. */
  lemma TokenUnlessEmpty(q: Query, start: Bytes, v: Visit)
    requires FirstPage(q, start, v).truncated
    ensures NextToken(FirstPage(q, start, v)).Some? <==> v.maxKeys >= 1
    ensures v.maxKeys == 0 <==> FirstItems(q, start, v) == []
  {}

  lemma AfterToken(q: Query, t: Bytes, all: seq<Object>, item: Item)
    requires IsBucket(all) && IsToken(q, t) && item in Items(q, t, all)
    ensures Lt(t, Text(item))
  {
    ItemsAreListing(q, t, all);
    var o :| o in all && Shows(q, t, o, item);
    ResumeRule(q, t, o);
  }

  lemma {:induction false} RunAfterToken(q: Query, t: Bytes, visits: seq<Visit>, item: Item)
    requires AreVisits(visits) && IsToken(q, t) && item in RunItems(q, t, visits)
    ensures Lt(t, Text(item))
    decreases |visits|
  {
    var v := visits[0];
    assert v in visits;
    if item in FirstItems(q, t, v) {
      AfterToken(q, t, v.all, item);
    } else {
      TokenOfPage(q, t, v);
      AfterToken(q, t, v.all, Items(q, t, v.all)[v.maxKeys - 1]);
      RunAfterToken(q, Resume(q, t, v), visits[1..], item);
      LtTransitive(t, Resume(q, t, v), Text(item));
    }
  }

  lemma InOrderJoin(a: seq<Item>, b: seq<Item>, t: Bytes)
    requires InOrder(a) && InOrder(b)
    requires forall i :: 0 <= i < |a| ==> Le(Text(a[i]), t)
    requires forall i :: 0 <= i < |b| ==> Lt(t, Text(b[i]))
    ensures InOrder(a + b)
  {
    forall i, j | 0 <= i < j < |a + b|
      ensures Lt(Text((a + b)[i]), Text((a + b)[j]))
    {
      if i < |a| <= j { LtTransitive(Text(a[i]), t, Text(b[j - |a|])); }
    }
  }

  lemma TakeInOrder(items: seq<Item>, n: nat)
    requires InOrder(items) && 0 < n <= |items|
    ensures InOrder(items[..n])
    ensures forall i :: 0 <= i < n ==> Le(Text(items[..n][i]), Text(items[n - 1]))
  {
    forall i | 0 <= i < n
      ensures Le(Text(items[..n][i]), Text(items[n - 1]))
    {
      if i == n - 1 { LeReflexive(Text(items[i])); } else { assert Lt(Text(items[i]), Text(items[n - 1])); }
    }
  }

  lemma ItemsInOrder(q: Query, start: Bytes, all: seq<Object>)
    requires Ascending(all)
    ensures InOrder(Items(q, start, all))
  {
    ItemsAreListing(q, start, all);
  }

  lemma RunGoesOn(q: Query, start: Bytes, v: Visit, visits: seq<Visit>)
    requires visits != [] && visits[0] == v && FirstPage(q, start, v).truncated
    ensures RunItems(q, start, visits)
      == Items(q, start, v.all)[..v.maxKeys] + RunItems(q, Resume(q, start, v), visits[1..])
    ensures Finished(q, start, visits) <==> Finished(q, Resume(q, start, v), visits[1..])
  {}

  lemma RunStops(q: Query, start: Bytes, v: Visit, visits: seq<Visit>)
    requires visits != [] && visits[0] == v && !FirstPage(q, start, v).truncated
    ensures RunItems(q, start, visits) == Items(q, start, v.all)
  {}

  lemma PagesJoin(items: seq<Item>, n: nat, rest: seq<Item>, t: Bytes)
    requires InOrder(items) && 0 < n <= |items| && t == Text(items[n - 1])
    requires InOrder(rest) && forall i :: 0 <= i < |rest| ==> Lt(t, Text(rest[i]))
    ensures InOrder(items[..n] + rest)
  {
    TakeInOrder(items, n);
    InOrderJoin(items[..n], rest, t);
  }

  lemma RestIsAfter(q: Query, t: Bytes, visits: seq<Visit>, rest: seq<Item>)
    requires AreVisits(visits) && IsToken(q, t) && rest == RunItems(q, t, visits)
    ensures forall i :: 0 <= i < |rest| ==> Lt(t, Text(rest[i]))
  {
    forall i | 0 <= i < |rest|
      ensures Lt(t, Text(rest[i]))
    {
      RunAfterToken(q, t, visits, rest[i]);
    }
  }

  /** However the bucket changes between the pages, a run shows its items in strictly ascending order, so
      that none is shown twice. */
  lemma {:induction false} RunAscending(q: Query, start: Bytes, visits: seq<Visit>)
    requires AreVisits(visits)
    ensures InOrder(RunItems(q, start, visits))
    decreases |visits|
  {
    if visits != [] {
      var v := visits[0];
      assert v in visits;
      ItemsInOrder(q, start, v.all);
      if FirstPage(q, start, v).truncated {
        var t, rest := Resume(q, start, v), RunItems(q, Resume(q, start, v), visits[1..]);
        RunAscending(q, t, visits[1..]);
        TokenOfPage(q, start, v);
        RestIsAfter(q, t, visits[1..], rest);
        PagesJoin(Items(q, start, v.all), v.maxKeys, rest, t);
        RunGoesOn(q, start, v, visits);
      } else {
        RunStops(q, start, v, visits);
      }
    }
  }

  /** Nothing is made up: every item shown stands for an object that was there at some visit. */
  lemma {:induction false} RunSound(q: Query, start: Bytes, visits: seq<Visit>, item: Item) returns (k: nat, o: Object)
    requires AreVisits(visits) && item in RunItems(q, start, visits)
    ensures k < |visits| && o in visits[k].all && q.prefix <= o.key && item == ItemOf(q, o)
    decreases |visits|
  {
    var v := visits[0];
    assert v in visits;
    if item in FirstItems(q, start, v) {
      ItemsAreListing(q, start, v.all);
      assert item in Items(q, start, v.all);
      o :| o in v.all && Shows(q, start, o, item);
      k := 0;
    } else {
      k, o := RunSound(q, Resume(q, start, v), visits[1..], item);
      k := k + 1;
    }
  }

  ghost predicate HasKey(all: seq<Object>, key: Bytes) {
    exists o :: o in all && o.key == key
  }

  /** The item is the key itself, or the common prefix that the key rolls up to. */
  predicate Covers(q: Query, item: Item, key: Bytes)
    requires q.prefix <= key
  {
    match Rollup(q, key)
    case None => item.ObjectItem? && item.entry.key == key
    case Some(cp) => item == PrefixItem(cp)
  }

  lemma FirstVisitCovers(q: Query, start: Bytes, v: Visit, key: Bytes) returns (k: nat)
    requires IsBucket(v.all) && v.maxKeys >= 1 && Shown(q, start, key) && HasKey(v.all, key)
    ensures k < |Items(q, start, v.all)| && Covers(q, Items(q, start, v.all)[k], key)
    ensures k >= v.maxKeys ==> FirstPage(q, start, v).truncated && Shown(q, Resume(q, start, v), key)
  {
    var o :| o in v.all && o.key == key;
    var items := Items(q, start, v.all);
    ItemsAreListing(q, start, v.all);
    k :| 0 <= k < |items| && items[k] == ItemOf(q, o);
    if k >= v.maxKeys {
      TokenOfPage(q, start, v);
      ResumeRule(q, Resume(q, start, v), o);
    }
  }

  lemma ConcatAt<T>(a: seq<T>, b: seq<T>, i: nat)
    requires i < |b|
    ensures (a + b)[|a| + i] == b[i]
  {}

  lemma ReachedLater(q: Query, start: Bytes, v: Visit, visits: seq<Visit>, key: Bytes, i: nat)
    requires visits != [] && visits[0] == v && FirstPage(q, start, v).truncated && q.prefix <= key
    requires var rest := RunItems(q, Resume(q, start, v), visits[1..]); i < |rest| && Covers(q, rest[i], key)
    ensures v.maxKeys + i < |RunItems(q, start, visits)| && Covers(q, RunItems(q, start, visits)[v.maxKeys + i], key)
  {
    RunGoesOn(q, start, v, visits);
    ConcatAt(Items(q, start, v.all)[..v.maxKeys], RunItems(q, Resume(q, start, v), visits[1..]), i);
  }

  lemma ReachedNow(q: Query, start: Bytes, v: Visit, visits: seq<Visit>, key: Bytes, k: nat)
    requires visits != [] && visits[0] == v && q.prefix <= key
    requires k < |FirstItems(q, start, v)| && Covers(q, Items(q, start, v.all)[k], key)
    ensures k < |RunItems(q, start, visits)| && Covers(q, RunItems(q, start, visits)[k], key)
  {
    assert RunItems(q, start, visits)[k] == FirstItems(q, start, v)[k];
  }

  lemma ReachStep(q: Query, start: Bytes, visits: seq<Visit>, key: Bytes) returns (here: bool, k: nat)
    requires visits != [] && IsBucket(visits[0].all) && visits[0].maxKeys >= 1 && Finished(q, start, visits)
    requires Shown(q, start, key) && HasKey(visits[0].all, key)
    ensures here ==> k < |RunItems(q, start, visits)| && Covers(q, RunItems(q, start, visits)[k], key)
    ensures !here ==> FirstPage(q, start, visits[0]).truncated && Shown(q, Resume(q, start, visits[0]), key)
    ensures !here ==> Finished(q, Resume(q, start, visits[0]), visits[1..])
  {
    var v := visits[0];
    k := FirstVisitCovers(q, start, v, key);
    here := k < |FirstItems(q, start, v)|;
    if here { ReachedNow(q, start, v, visits, key, k); } else { RunGoesOn(q, start, v, visits); }
  }

  lemma {:induction false} RunReaches(q: Query, start: Bytes, visits: seq<Visit>, key: Bytes) returns (i: nat)
    requires AreVisits(visits) && Finished(q, start, visits)
    requires Shown(q, start, key) && forall v :: v in visits ==> HasKey(v.all, key)
    ensures i < |RunItems(q, start, visits)| && Covers(q, RunItems(q, start, visits)[i], key)
    decreases |visits|
  {
    var v := visits[0];
    assert v in visits;
    var here, k := ReachStep(q, start, visits, key);
    i := k;
    if !here {
      assert forall w :: w in visits[1..] ==> w in visits;
      var j := RunReaches(q, Resume(q, start, v), visits[1..], key);
      ReachedLater(q, start, v, visits, key, j);
      i := v.maxKeys + j;
    }
  }

  /** On a finished run every key that was there at every visit, and lies behind the start position, is covered
      by exactly one of the items shown. */
  lemma RunCovers(q: Query, start: Bytes, visits: seq<Visit>, key: Bytes) returns (i: nat)
    requires AreVisits(visits) && Finished(q, start, visits)
    requires q.prefix <= key && Behind(q, start, key)
    requires forall v :: v in visits ==> HasKey(v.all, key)
    ensures i < |RunItems(q, start, visits)| && Covers(q, RunItems(q, start, visits)[i], key)
    ensures var items := RunItems(q, start, visits);
      forall j :: 0 <= j < |items| && Covers(q, items[j], key) ==> j == i
  {
    var items := RunItems(q, start, visits);
    StartRule(q, start, key);
    i := RunReaches(q, start, visits, key);
    RunAscending(q, start, visits);
    forall j | 0 <= j < |items| && Covers(q, items[j], key)
      ensures j == i
    {
      assert Text(items[i]) == Text(items[j]);
    }
  }

  // ---- a client's run over a bucket that does not change ----

  lemma ShownUpwards(q: Query, start: Bytes, a: Object, b: Object)
    requires Shown(q, start, a.key) && q.prefix <= b.key && Lt(Text(ItemOf(q, a)), Text(ItemOf(q, b)))
    ensures Shown(q, start, b.key)
  {
    LeTotal(a.key, b.key);
    if Lt(b.key, a.key) {
      ItemMonotone(q, b, a);
      if Le(Text(ItemOf(q, b)), Text(ItemOf(q, a))) { LeAntisymmetric(Text(ItemOf(q, a)), Text(ItemOf(q, b))); }
    }
    assert a.key != b.key;
    if start != [] {
      LeTotal(start, a.key);
      LtTransitive(start, a.key, b.key);
      if Le(b.key, start) { LeAntisymmetric(start, b.key); }
      if Rollup(q, b.key).Some? && Le(Rollup(q, b.key).value, start) {
        LeTransitive(Rollup(q, b.key).value, start, a.key);
        RollupBetween(q, a.key, b.key);
      }
    }
  }

  lemma {:induction false} InOrderAt(items: seq<Item>, n: nat, item: Item)
    requires InOrder(items) && 0 < n <= |items| && item in items
    ensures item in items[n..] <==> Lt(Text(items[n - 1]), Text(item))
  {
    var k :| 0 <= k < |items| && items[k] == item;
    if k >= n {
      assert items[n..][k - n] == item;
    } else {
      assert Le(Text(item), Text(items[n - 1])) by { LeReflexive(Text(item)); }
      if Lt(Text(items[n - 1]), Text(item)) { LeAntisymmetric(Text(item), Text(items[n - 1])); }
      forall j | n <= j < |items|
        ensures items[j] != item
      {
        assert Lt(Text(items[k]), Text(items[j]));
      }
    }
  }

  lemma ShownAfterPage(q: Query, start: Bytes, v: Visit, o: Object)
    requires IsBucket(v.all) && v.maxKeys >= 1 && FirstPage(q, start, v).truncated
    requires o in v.all && Shown(q, Resume(q, start, v), o.key)
    ensures v.maxKeys < |Items(q, start, v.all)| && ItemOf(q, o) in Items(q, start, v.all)[v.maxKeys..]
  {
    var items, n := Items(q, start, v.all), v.maxKeys;
    TokenOfPage(q, start, v);
    ItemsAreListing(q, start, v.all);
    assert items[n - 1] in items;
    var last :| last in v.all && Shows(q, start, last, items[n - 1]);
    ResumeRule(q, Resume(q, start, v), o);
    ShownUpwards(q, start, last, o);
    InOrderAt(items, n, ItemOf(q, o));
  }

  lemma LeftAfterPage(q: Query, start: Bytes, v: Visit, item: Item) returns (o: Object)
    requires IsBucket(v.all) && v.maxKeys >= 1 && FirstPage(q, start, v).truncated
    requires v.maxKeys < |Items(q, start, v.all)| && item in Items(q, start, v.all)[v.maxKeys..]
    ensures o in v.all && Shows(q, Resume(q, start, v), o, item)
  {
    var items := Items(q, start, v.all);
    TokenOfPage(q, start, v);
    ItemsAreListing(q, start, v.all);
    assert item in items;
    o :| o in v.all && Shows(q, start, o, item);
    InOrderAt(items, v.maxKeys, item);
    ResumeRule(q, Resume(q, start, v), o);
  }

  /** After the token of a page, the listing goes on exactly where the page ended. */
  lemma RestAfterPage(q: Query, start: Bytes, v: Visit)
    requires IsBucket(v.all) && v.maxKeys >= 1 && FirstPage(q, start, v).truncated
    ensures v.maxKeys < |Items(q, start, v.all)|
    ensures Items(q, Resume(q, start, v), v.all) == Items(q, start, v.all)[v.maxKeys..]
  {
    var t, rest := Resume(q, start, v), Items(q, start, v.all)[v.maxKeys..];
    assert InOrder(rest) by { ItemsAreListing(q, start, v.all); }
    forall o | o in v.all && Shown(q, t, o.key)
      ensures ItemOf(q, o) in rest
    {
      ShownAfterPage(q, start, v, o);
    }
    forall item | item in rest
      ensures exists o :: o in v.all && Shows(q, t, o, item)
    {
      var o := LeftAfterPage(q, start, v, item);
    }
    ItemsAreListing(q, t, v.all);
    ListingUnique(q, t, v.all, Items(q, t, v.all), rest);
  }

  /** On a fixed bucket the pages of a finished run, whatever their sizes, add up to the one-shot listing. */
  lemma {:induction false} RunOfFixedBucket(q: Query, start: Bytes, all: seq<Object>, visits: seq<Visit>)
    requires AreVisits(visits) && Finished(q, start, visits)
    requires forall v :: v in visits ==> v.all == all
    ensures RunItems(q, start, visits) == Items(q, start, all)
    decreases |visits|
  {
    var v := visits[0];
    assert v in visits;
    if FirstPage(q, start, v).truncated {
      RunGoesOn(q, start, v, visits);
      RestAfterPage(q, start, v);
      assert forall w :: w in visits[1..] ==> w in visits;
      RunOfFixedBucket(q, Resume(q, start, v), all, visits[1..]);
    } else {
      RunStops(q, start, v, visits);
    }
  }

  /** How many pages of `max` items it takes to show `n` items: one at least, the last one not full. */
  function Pages(n: nat, max: nat): (p: nat)
    requires max >= 1
    ensures p >= 1
    decreases n
  {
    if n <= max then 1 else 1 + Pages(n - max, max)
  }

  lemma {:induction false} PagesIsCeiling(n: nat, max: nat)
    requires max >= 1
    ensures (Pages(n, max) - 1) * max < n <= Pages(n, max) * max || (n == 0 && Pages(n, max) == 1)
    decreases n
  {
    if n > max {
      PagesIsCeiling(n - max, max);
      var p := Pages(n - max, max);
      assert (p + 1 - 1) * max == (p - 1) * max + max;
      assert (p + 1) * max == p * max + max;
    }
  }

  /** With a fixed page size the run ends after exactly that many pages. */
  lemma {:induction false} RunLength(q: Query, start: Bytes, v: Visit, visits: seq<Visit>)
    requires IsBucket(v.all) && v.maxKeys >= 1 && forall w :: w in visits ==> w == v
    ensures Finished(q, start, visits) <==> |visits| >= Pages(|Items(q, start, v.all)|, v.maxKeys)
    decreases |visits|
  {
    if visits != [] {
      assert visits[0] in visits;
      if FirstPage(q, start, v).truncated {
        RunGoesOn(q, start, v, visits);
        RestAfterPage(q, start, v);
        assert forall w :: w in visits[1..] ==> w in visits;
        RunLength(q, Resume(q, start, v), v, visits[1..]);
      }
    }
  }
}
