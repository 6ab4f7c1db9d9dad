/**
 * The item searches: `search_items` (case-insensitive keyword in the name)
 * and the two inline filters of the search menu (case-insensitive location
 * substring, exact item type). Each is a list comprehension over the items,
 * modelled as one order-keeping filter.
 */
module Search {
  import opened Text
  import opened Records

  datatype Query =
    | ByName(keyword: string)
    | ByLocation(place: string)
    | ByType(itemType: string)

  /** Whether an item passes the comprehension's condition. */
  predicate Matches(q: Query, it: Item) {
    match q
    case ByName(k) => Contains(Lower(it.name), Lower(k))
    case ByLocation(p) => Contains(Lower(it.location), Lower(p))
    case ByType(t) => it.itemType == t
  }

  /** The items that match q, in their stored order. */
  function Filter(items: seq<Item>, q: Query): (r: seq<Item>)
    ensures |r| <= |items|
    ensures forall it :: it in r <==> it in items && Matches(q, it)
  {
    if items == [] then []
    else (if Matches(q, items[0]) then [items[0]] else []) + Filter(items[1..], q)
  }

  /** Filtering commutes with concatenation, so the result keeps the stored order. */
  lemma {:induction false} FilterAppend(a: seq<Item>, b: seq<Item>, q: Query)
    ensures Filter(a + b, q) == Filter(a, q) + Filter(b, q)
  {
    if a == [] {
      assert a + b == b;
    } else {
      assert (a + b)[1..] == a[1..] + b;
      FilterAppend(a[1..], b, q);
    }
  }

  /** When every item matches, the filter returns the whole collection. */
  lemma {:induction false} FilterAllMatch(items: seq<Item>, q: Query)
    requires forall i :: 0 <= i < |items| ==> Matches(q, items[i])
    ensures Filter(items, q) == items
  {
    if items != [] {
      FilterAllMatch(items[1..], q);
    }
  }

  /** Two queries that accept the same items give the same result. */
  lemma {:induction false} FilterAgrees(items: seq<Item>, q1: Query, q2: Query)
    requires forall i :: 0 <= i < |items| ==> (Matches(q1, items[i]) <==> Matches(q2, items[i]))
    ensures Filter(items, q1) == Filter(items, q2)
  {
    if items != [] {
      FilterAgrees(items[1..], q1, q2);
    }
  }

  /** `search_items("")` returns every item. */
  lemma {:induction false} SearchEmptyKeyword(items: seq<Item>)
    ensures Filter(items, ByName("")) == items
  {
    forall i | 0 <= i < |items| ensures Matches(ByName(""), items[i]) {
      assert [] <= Lower(items[i].name);
    }
    FilterAllMatch(items, ByName(""));
  }

  /** Keywords that differ only in letter case find the same items. */
  lemma {:induction false} SearchIgnoresCase(items: seq<Item>, k1: string, k2: string)
    requires Lower(k1) == Lower(k2)
    ensures Filter(items, ByName(k1)) == Filter(items, ByName(k2))
  {
    FilterAgrees(items, ByName(k1), ByName(k2));
  }

  /** Keywords equal up to the case of their letters find the same items. */
  lemma {:induction false} SearchSameUpToCase(items: seq<Item>, k1: string, k2: string)
    requires SameUpToCase(k1, k2)
    ensures Filter(items, ByName(k1)) == Filter(items, ByName(k2))
  {
    SameUpToCaseIffLowerEqual(k1, k2);
    SearchIgnoresCase(items, k1, k2);
  }

  /** Searching with a keyword is searching with its lower-cased form. */
  lemma SearchLowersKeyword(items: seq<Item>, k: string)
    ensures Filter(items, ByName(k)) == Filter(items, ByName(Lower(k)))
  {
    LowerIdempotent(k);
    SearchIgnoresCase(items, k, Lower(k));
  }

  /** Locations that differ only in letter case find the same items. */
  lemma {:induction false} LocationIgnoresCase(items: seq<Item>, p1: string, p2: string)
    requires Lower(p1) == Lower(p2)
    ensures Filter(items, ByLocation(p1)) == Filter(items, ByLocation(p2))
  {
    FilterAgrees(items, ByLocation(p1), ByLocation(p2));
  }

  /** When every item is "lost" or "found", the two type filters split the collection between them. */
  lemma {:induction false} TypeFiltersPartition(items: seq<Item>)
    requires forall i :: 0 <= i < |items| ==> items[i].itemType == "lost" || items[i].itemType == "found"
    ensures |Filter(items, ByType("lost"))| + |Filter(items, ByType("found"))| == |items|
    ensures multiset(Filter(items, ByType("lost"))) + multiset(Filter(items, ByType("found"))) == multiset(items)
    decreases |items|
  {
    if items != [] {
      TypeFiltersPartition(items[1..]);
      assert items == [items[0]] + items[1..];
    }
  }
}
