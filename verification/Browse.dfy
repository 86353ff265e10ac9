/** The public browse list: one item per asset with a public version, newest first. */
module Browse {
  import opened Options
  import opened Ordering
  import opened Gate
  import Identity
  import Text

  datatype Origin = Origin(id: string, name: string, slug: string, visibility: Visibility)

  datatype Row = Row(
    pid: string,
    assetType: string,
    title: string,
    slug: string,
    origin: Origin,
    publicVersions: int,
    latestVersion: string,
    latestPublishedAt: int)

  datatype Item = Item(
    pid: string,
    assetType: string,
    title: string,
    slug: string,
    url: string,
    origin: Option<Origin>,
    publicVersions: int,
    latestVersion: string,
    latestUrl: string,
    latestPublishedAt: int)

  predicate Nameable(o: Origin) {
    o.visibility == Public && o.id != ""
  }

  predicate Selected(filter: Option<string>, row: Row) {
    (filter.None? || row.assetType == filter.value) && row.publicVersions >= 1
  }

  function ItemOf(row: Row): Item {
    Item(row.pid, row.assetType, row.title, row.slug, Identity.AssetUrl(row.pid),
         if Nameable(row.origin) then Some(row.origin) else None,
         row.publicVersions, row.latestVersion, Identity.AssetVersionUrl(row.pid, row.latestVersion), row.latestPublishedAt)
  }

  function BrowseEntry(filter: Option<string>, row: Row): Option<Item> {
    if Selected(filter, row) then Some(ItemOf(row)) else None
  }

  function BrowseRule(filter: Option<string>): Row -> Option<Item> {
    row => BrowseEntry(filter, row)
  }

  /** The list's order: newest publication first, then by pid. */
  predicate Before(a: Item, b: Item) {
    if a.latestPublishedAt != b.latestPublishedAt then a.latestPublishedAt > b.latestPublishedAt else Text.StringLess(a.pid, b.pid)
  }

  function BrowseOf(rows: seq<Row>, filter: Option<string>): seq<Item> {
    StableSort(Gather(rows, BrowseRule(filter)), Before)
  }

  method BuildBrowse(rows: seq<Row>, filter: Option<string>) returns (items: seq<Item>)
    ensures items == BrowseOf(rows, filter)
  {
    hide Gather, StableSort, Identity.AssetUrl, Identity.AssetVersionUrl;
    items := [];
    var rule := BrowseRule(filter);
    GatherEmpty(rows[..0], rule);
    for i := 0 to |rows|
      invariant items == Gather(rows[..i], rule)
    {
      var row := rows[i];
      assert rows[..i + 1] == rows[..i] + [row];
      GatherSnoc(rows[..i], row, rule);
      if filter.Some? && row.assetType != filter.value {
        continue;
      }
      if row.publicVersions < 1 {
        continue;
      }
      var item := Item(row.pid, row.assetType, row.title, row.slug, Identity.AssetUrl(row.pid), None, row.publicVersions,
                       row.latestVersion, Identity.AssetVersionUrl(row.pid, row.latestVersion), row.latestPublishedAt);
      if row.origin.visibility == Public && row.origin.id != "" {
        item := item.(origin := Some(row.origin));
      }
      items := items + [item];
    }
    assert rows[..|rows|] == rows;
    items := StableSort(items, Before);
  }

  // ---------------------------------------------------------------- order

  lemma BeforeIsStrict()
    ensures StrictWeak(Before)
  {
    forall a, b | Before(a, b) ensures !Before(b, a) {
      Text.StringLessAsymmetric(a.pid, b.pid);
    }
    forall a, b, c | Before(a, b) ensures Before(a, c) || Before(c, b) {
      if Text.StringLess(a.pid, b.pid) {
        Text.StringLessBetween(a.pid, b.pid, c.pid);
      }
    }
  }

  lemma TiesShareThePid(a: Item, b: Item)
    requires !Before(a, b) && !Before(b, a)
    ensures a.pid == b.pid && a.latestPublishedAt == b.latestPublishedAt
  {
    Text.StringLessTotal(a.pid, b.pid);
  }

  /** Newest first, and among equal times by pid. */
  lemma BrowseIsSorted(rows: seq<Row>, filter: Option<string>, i: nat, j: nat)
    requires i < j < |BrowseOf(rows, filter)|
    ensures var items := BrowseOf(rows, filter);
            items[i].latestPublishedAt > items[j].latestPublishedAt
            || (items[i].latestPublishedAt == items[j].latestPublishedAt && !Text.StringLess(items[j].pid, items[i].pid))
  {
    hide Gather, StableSort;
    BeforeIsStrict();
    StableSortSorted(Gather(rows, BrowseRule(filter)), Before);
    assert !Before(BrowseOf(rows, filter)[j], BrowseOf(rows, filter)[i]);
  }

  // ---------------------------------------------------------------- permutation invariance

  ghost predicate UniquePids(rows: seq<Row>) {
    forall i, j :: 0 <= i < |rows| && 0 <= j < |rows| && rows[i].pid == rows[j].pid ==> i == j
  }

  lemma ListedFrom(rows: seq<Row>, filter: Option<string>, item: Item) returns (i: nat)
    requires item in BrowseOf(rows, filter)
    ensures i < |rows| && Selected(filter, rows[i]) && item == ItemOf(rows[i])
  {
    hide Gather, StableSort, ItemOf;
    var items := Gather(rows, BrowseRule(filter));
    StableSortBag(items, Before);
    assert item in multiset(StableSort(items, Before));
    GatherMember(rows, BrowseRule(filter), item);
    i :| 0 <= i < |rows| && BrowseRule(filter)(rows[i]) == Some(item);
  }

  lemma TiesAreEqual(rows: seq<Row>, filter: Option<string>, a: Item, b: Item)
    requires UniquePids(rows) && a in BrowseOf(rows, filter) && b in BrowseOf(rows, filter)
    requires !Before(a, b) && !Before(b, a)
    ensures a == b
  {
    hide BrowseOf;
    TiesShareThePid(a, b);
    var i := ListedFrom(rows, filter, a);
    var j := ListedFrom(rows, filter, b);
  }

  /** Any reordering of the rows gives the identical list. */
  lemma BrowsePermutationInvariant(a: seq<Row>, b: seq<Row>, filter: Option<string>)
    requires multiset(a) == multiset(b) && UniquePids(a)
    ensures BrowseOf(a, filter) == BrowseOf(b, filter)
  {
    hide Gather, StableSort, Before;
    var x, y := Gather(a, BrowseRule(filter)), Gather(b, BrowseRule(filter));
    BeforeIsStrict();
    GatherBag(a, b, BrowseRule(filter));
    StableSortBag(x, Before);
    StableSortBag(y, Before);
    StableSortSorted(x, Before);
    StableSortSorted(y, Before);
    forall p, q | p in BrowseOf(a, filter) && q in BrowseOf(a, filter) && !Before(p, q) && !Before(q, p) ensures p == q {
      TiesAreEqual(a, filter, p, q);
    }
    SortedUnique(BrowseOf(a, filter), BrowseOf(b, filter), Before);
  }

  // ---------------------------------------------------------------- withheld projects

  /** Rows that differ at most in a project the list may not name. */
  ghost predicate RowsAlike(a: Row, b: Row) {
    a == b || (!Nameable(a.origin) && !Nameable(b.origin) && b == a.(origin := b.origin))
  }

  /** The list says nothing about a project that is not public. */
  lemma BrowseNonInterference(a: seq<Row>, b: seq<Row>, filter: Option<string>)
    requires |a| == |b| && forall i :: 0 <= i < |a| ==> RowsAlike(a[i], b[i])
    ensures BrowseOf(a, filter) == BrowseOf(b, filter)
  {
    hide Gather, StableSort, Identity.AssetUrl, Identity.AssetVersionUrl;
    forall i | 0 <= i < |a| ensures BrowseRule(filter)(a[i]) == BrowseRule(filter)(b[i]) {
      assert RowsAlike(a[i], b[i]);
    }
    GatherAlike(a, b, BrowseRule(filter));
  }

  /** The item says what the row says, with the asset's and the latest version's addresses, and the
      project only when it is public. */
  ghost predicate Shows(row: Row, x: Item) {
    && x.pid == row.pid && x.assetType == row.assetType && x.title == row.title && x.slug == row.slug
    && x.url == "/assets/" + row.pid && x.publicVersions == row.publicVersions && x.latestVersion == row.latestVersion
    && x.latestUrl == "/assets/" + row.pid + "/" + row.latestVersion && x.latestPublishedAt == row.latestPublishedAt
    && (row.origin.visibility == Public && row.origin.id != "" ==> x.origin == Some(row.origin))
    && (!(row.origin.visibility == Public && row.origin.id != "") ==> x.origin == None)
  }

  lemma ItemIs(row: Row, x: Item)
    ensures x == ItemOf(row) <==> Shows(row, x)
  {
  }

  /** Exactly the rows of the asked type with a public version are listed, each as its item. */
  lemma BrowseListsExactly(rows: seq<Row>, filter: Option<string>, x: Item)
    ensures x in BrowseOf(rows, filter)
       <==> exists i :: 0 <= i < |rows| && (filter.Some? ==> rows[i].assetType == filter.value) && rows[i].publicVersions >= 1 && Shows(rows[i], x)
  {
    hide Gather, StableSort, ItemOf, Shows;
    var items := Gather(rows, BrowseRule(filter));
    StableSortBag(items, Before);
    assert x in multiset(BrowseOf(rows, filter)) <==> x in multiset(items);
    if x in BrowseOf(rows, filter) {
      var k := ListedFrom(rows, filter, x);
      ItemIs(rows[k], x);
    }
    forall i | 0 <= i < |rows| && Selected(filter, rows[i]) && Shows(rows[i], x) ensures x in items {
      ItemIs(rows[i], x);
      GatherHas(rows, BrowseRule(filter), i);
    }
  }

  /** Exactly the selected rows are listed. */
  lemma BrowseLists(rows: seq<Row>, filter: Option<string>, i: nat)
    requires UniquePids(rows) && i < |rows|
    ensures ItemOf(rows[i]) in BrowseOf(rows, filter) <==> Selected(filter, rows[i])
  {
    hide Gather, StableSort, Identity.AssetUrl, Identity.AssetVersionUrl;
    var items := Gather(rows, BrowseRule(filter));
    StableSortBag(items, Before);
    assert ItemOf(rows[i]) in multiset(BrowseOf(rows, filter)) <==> ItemOf(rows[i]) in multiset(items);
    if Selected(filter, rows[i]) {
      GatherHas(rows, BrowseRule(filter), i);
    }
    if ItemOf(rows[i]) in BrowseOf(rows, filter) {
      var k := ListedFrom(rows, filter, ItemOf(rows[i]));
    }
  }
}
