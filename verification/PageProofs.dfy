/** What the page guarantees: a reader who is not a member learns nothing private,
    membership only adds, and the scan and the sort agree on the rendered version. */
module PageProofs {
  import opened Options
  import opened Ordering
  import opened Gate
  import opened Preview
  import opened Page
  import Identity

  // ---------------------------------------------------------------- the public part of a state

  function PublicIds(versions: seq<VersionRow>): set<string> {
    set v | v in versions && MaySee(v, false) :: v.id
  }

  const NOBODY := VersionRef("", "", Private, Private, "")

  /** A version the network cannot open keeps no trace of what it is. */
  function Withheld(v: VersionRef): VersionRef {
    if MayLink(v) then v else NOBODY
  }

  function WithheldPin(p: PinRow): PinRow {
    if p.resolved && MayLink(p.pinned) then p else PinRow(p.resolved, NOBODY, "")
  }

  function WithheldEdge(e: Edge): Edge {
    Edge(e.relation, e.parent.(named := Withheld(e.parent.named)), e.child.(named := Withheld(e.child.named)))
  }

  /** An edge between a version shown here and one the network can open. */
  predicate EdgeShown(ids: set<string>, e: Edge) {
    || (e.parent.versionId in ids && MayLink(e.child.named))
    || (e.child.versionId in ids && MayLink(e.parent.named))
  }

  predicate UsagePublic(ids: set<string>, u: Usage) {
    u.assetVersionId in ids && UsageShown(u)
  }

  predicate EventPublic(labels: set<string>, e: Event) {
    e.visibility == Public && (e.assetVersion == "" || e.assetVersion in labels)
  }

  function KeepEdges(ids: set<string>): Edge -> bool { e => EdgeShown(ids, e) }
  function KeepUsages(ids: set<string>): Usage -> bool { u => UsagePublic(ids, u) }
  function KeepEvents(labels: set<string>): Event -> bool { e => EventPublic(labels, e) }

  function PublicRefs(state: PageState): map<string, StoredRef> {
    map k | k in state.refs && RefShown(state, false, state.refs[k]) :: state.refs[k]
  }

  function PublicPins(pins: map<string, PinRow>): map<string, PinRow> {
    map k | k in pins :: WithheldPin(pins[k])
  }

  function PublicLineage(state: PageState): seq<Edge> {
    Map(Filter(state.lineage, KeepEdges(PublicIds(state.versions))), WithheldEdge)
  }

  /** The state with everything private taken out: private versions and their credits, the
      own project unless public, refs into projects that are not public, what unlinkable pins
      and lineage ends name, usages and events that are not public. */
  function PublicView(state: PageState): PageState {
    var ids, labels := PublicIds(state.versions), Labels(state.versions, false);
    var own := MayRenderOwnProject(state.project, false);
    PageState(
      if own then state.asset else state.asset.(originProjectId := ""),
      if own then state.project else ProjectRow("", "", "", Private),
      Filter(state.versions, Seen(false)),
      state.users,
      map id | id in state.parties && id in ids :: state.parties[id],
      state.organizations,
      PublicPins(state.pins),
      PublicRefs(state),
      PublicLineage(state),
      Filter(state.usages, KeepUsages(ids)),
      Filter(state.events, KeepEvents(labels)))
  }

  /** A resolved ref names the project it resolved into. */
  ghost predicate RefsNamed(state: PageState) {
    forall k :: k in state.refs && state.refs[k].resolved ==> state.refs[k].projectId != ""
  }

  /** Nothing private is left in the public part. */
  ghost predicate NothingPrivate(state: PageState) {
    && (forall v :: v in state.versions ==> v.visibility == Public)
    && (state.project.id == "" || state.project.visibility == Public)
    && (forall k :: k in state.parties ==> exists v :: v in state.versions && v.id == k)
    && (forall k :: k in state.refs ==> state.refs[k].resolved && (state.refs[k].projectVisibility == Public || state.project.id != ""))
    && (forall k :: k in state.pins ==> MayLink(state.pins[k].pinned) || state.pins[k].pinned == NOBODY)
    && (forall e :: e in state.lineage ==>
          && (MayLink(e.parent.named) || (e.parent.named == NOBODY && e.parent.versionId in PublicIds(state.versions)))
          && (MayLink(e.child.named) || (e.child.named == NOBODY && e.child.versionId in PublicIds(state.versions))))
    && (forall u :: u in state.usages ==> UsageShown(u))
    && (forall e :: e in state.events ==> EventPublic(Labels(state.versions, false), e))
  }

  lemma SeenIdsSame(versions: seq<VersionRow>)
    ensures PublicIds(Filter(versions, Seen(false))) == PublicIds(versions)
    ensures Labels(Filter(versions, Seen(false)), false) == Labels(versions, false)
  {
    hide Filter;
    forall v ensures v in Filter(versions, Seen(false)) <==> v in versions && MaySee(v, false) {
      FilterMember(versions, Seen(false), v);
    }
  }

  lemma LineageViewPublic(state: PageState, e: Edge)
    requires e in PublicLineage(state)
    ensures MayLink(e.parent.named) || (e.parent.named == NOBODY && e.parent.versionId in PublicIds(state.versions))
    ensures MayLink(e.child.named) || (e.child.named == NOBODY && e.child.versionId in PublicIds(state.versions))
  {
    hide Filter, PublicIds;
    var ids := PublicIds(state.versions);
    var kept := Filter(state.lineage, KeepEdges(ids));
    var i :| 0 <= i < |kept| && e == WithheldEdge(kept[i]);
    FilterMember(state.lineage, KeepEdges(ids), kept[i]);
  }

  lemma PublicViewHoldsNothingPrivate(state: PageState)
    ensures NothingPrivate(PublicView(state))
  {
    hide Filter, PublicIds, Labels, PublicLineage;
    var view := PublicView(state);
    SeenIdsSame(state.versions);
    forall v | v in view.versions ensures v.visibility == Public {
      FilterMember(state.versions, Seen(false), v);
    }
    forall u | u in view.usages ensures UsageShown(u) {
      FilterMember(state.usages, KeepUsages(PublicIds(state.versions)), u);
    }
    forall e | e in view.events ensures EventPublic(Labels(view.versions, false), e) {
      FilterMember(state.events, KeepEvents(Labels(state.versions, false)), e);
    }
    forall e | e in view.lineage
      ensures MayLink(e.parent.named) || (e.parent.named == NOBODY && e.parent.versionId in PublicIds(view.versions))
      ensures MayLink(e.child.named) || (e.child.named == NOBODY && e.child.versionId in PublicIds(view.versions))
    {
      LineageViewPublic(state, e);
    }
    forall k | k in view.parties ensures exists v :: v in view.versions && v.id == k {
      IdOfPublicVersion(state.versions, k);
    }
  }

  lemma IdOfPublicVersion(versions: seq<VersionRow>, id: string)
    requires id in PublicIds(versions)
    ensures exists v :: v in Filter(versions, Seen(false)) && v.id == id
  {
    hide Filter;
    var v :| v in versions && MaySee(v, false) && v.id == id;
    FilterMember(versions, Seen(false), v);
  }

  // ---------------------------------------------------------------- the page of the public part

  lemma CurrentOfView(versions: seq<VersionRow>, want: string)
    ensures CurrentOf(Filter(versions, Seen(false)), false, want) == CurrentOf(versions, false, want)
    ensures Filter(Filter(versions, Seen(false)), Seen(false)) == Filter(versions, Seen(false))
  {
    hide Filter, StableSort;
    FilterTwice(versions, Seen(false), Seen(false));
    FilterTwice(versions, Seen(false), Wanted(false, want));
  }

  lemma CurrentIsPublic(versions: seq<VersionRow>, want: string)
    requires CurrentOf(versions, false, want).Some?
    ensures CurrentOf(versions, false, want).value.id in PublicIds(versions)
  {
    CurrentIsVisible(versions, false, want);
  }

  lemma CurrentIsVisible(versions: seq<VersionRow>, member: bool, want: string)
    requires CurrentOf(versions, member, want).Some?
    ensures var v := CurrentOf(versions, member, want).value; v in versions && MaySee(v, member) && (want == "" || v.version == want)
  {
    hide Filter, StableSort;
    var v := CurrentOf(versions, member, want).value;
    var visible := Filter(versions, Seen(member));
    FilterMember(versions, Seen(member), v);
    if want != "" {
      FilterMember(versions, Wanted(member, want), v);
    } else {
      StableSortBag(visible, Newer);
      assert v in multiset(StableSort(visible, Newer));
    }
  }

  lemma OriginsOfView(state: PageState, v: VersionRow)
    requires RefsNamed(state)
    ensures OriginsOf(PublicView(state), false, v) == OriginsOf(state, false, v)
  {
    hide Gather, Filter, PublicIds, Labels, PublicLineage, Identity.ParseOriginRef, OriginLink;
    GatherSame(v.originRefs, OriginRule(PublicView(state), false), OriginRule(state, false));
  }

  lemma DependenciesOfView(pins: map<string, PinRow>, names: seq<string>)
    ensures Gather(names, DependencyRule(PublicPins(pins))) == Gather(names, DependencyRule(pins))
  {
    hide Gather, Identity.AssetVersionUrl;
    GatherSame(names, DependencyRule(PublicPins(pins)), DependencyRule(pins));
  }

  lemma CreatorsOfView(state: PageState, v: VersionRow)
    requires v.id in PublicIds(state.versions)
    ensures CreatorsOf(PublicView(state), v) == CreatorsOf(state, v)
  {
    hide Gather, Filter, PublicIds, Labels, PublicLineage, PublicPins, PublicRefs;
    GatherSame(PartiesOf(state, v.id), CreatorRule(PublicView(state)), CreatorRule(state));
  }

  lemma LineageOfView(state: PageState, v: VersionRow)
    requires v.id in PublicIds(state.versions)
    ensures Gather(PublicLineage(state), LineageRule(v.id)) == Gather(state.lineage, LineageRule(v.id))
  {
    hide Gather, Filter, PublicIds, LinkTo;
    var keep := KeepEdges(PublicIds(state.versions));
    GatherMapped(Filter(state.lineage, keep), WithheldEdge, LineageRule(v.id));
    GatherFilter(state.lineage, keep, LineageRule(v.id));
  }

  lemma UsagesOfView(usages: seq<Usage>, ids: set<string>, id: string)
    requires id in ids
    ensures Gather(Filter(usages, KeepUsages(ids)), UsageRule(id)) == Gather(usages, UsageRule(id))
  {
    hide Gather, Filter;
    GatherFilter(usages, KeepUsages(ids), UsageRule(id));
  }

  lemma EventsOfView(events: seq<Event>, labels: set<string>, users: map<string, User>)
    ensures Gather(Filter(events, KeepEvents(labels)), EventRule(users, labels, false)) == Gather(events, EventRule(users, labels, false))
  {
    hide Gather, Filter, UserOf;
    GatherFilter(events, KeepEvents(labels), EventRule(users, labels, false));
  }

  /** A reader who is not a member reads the page of the public part alone. */
  lemma PageOfPublicView(state: PageState, want: string)
    requires RefsNamed(state)
    ensures PageOf(PublicView(state), false, want) == PageOf(state, false, want)
  {
    hide Gather, Filter, StableSort, PublicIds, Labels, PublicLineage, PublicPins, PublicRefs, CurrentOf, OriginsOf, CreatorsOf, MetadataOf,
      PinsOfVersion, UserOf;
    CurrentOfView(state.versions, want);
    SeenIdsSame(state.versions);
    var current := CurrentOf(state.versions, false, want);
    if current.Some? {
      var v, labels := current.value, Labels(state.versions, false);
      CurrentIsPublic(state.versions, want);
      OriginsOfView(state, v);
      CreatorsOfView(state, v);
      DependenciesOfView(state.pins, PinsOfVersion(v));
      LineageOfView(state, v);
      UsagesOfView(state.usages, PublicIds(state.versions), v.id);
      EventsOfView(state.events, labels, state.users);
    }
  }

  /** Non-interference: two states with the same public part give a reader who is not a
      member the same page, whatever their private rows are. */
  lemma PageNonInterference(s: PageState, t: PageState, want: string)
    requires RefsNamed(s) && RefsNamed(t) && PublicView(s) == PublicView(t)
    ensures PageOf(s, false, want) == PageOf(t, false, want)
  {
    hide PublicView, PageOf;
    PageOfPublicView(s, want);
    PageOfPublicView(t, want);
  }

  lemma {:induction false} FilterConcat<T(!new)>(a: seq<T>, b: seq<T>, keep: T -> bool)
    ensures Filter(a + b, keep) == Filter(a, keep) + Filter(b, keep)
  {
    if b == [] {
      assert a + b == a;
    } else {
      var c, x := b[..|b| - 1], b[|b| - 1];
      assert a + b == (a + c) + [x] && b == c + [x];
      FilterConcat(a, c, keep);
      FilterSnoc(a + c, x, keep);
    }
  }

  /** Publishing a private version anywhere in the history leaves the public part as it was. */
  lemma PrivateVersionUnseen(state: PageState, before: seq<VersionRow>, v: VersionRow, after: seq<VersionRow>)
    requires state.versions == before + after && v.visibility != Public
    ensures PublicView(state.(versions := before + [v] + after)) == PublicView(state)
  {
    hide Filter, PublicLineage, PublicPins;
    FilterConcat(before, after, Seen(false));
    FilterConcat(before + [v], after, Seen(false));
    FilterSnoc(before, v, Seen(false));
    assert Filter(before, Seen(false)) + [] == Filter(before, Seen(false));
    var t := state.(versions := before + [v] + after);
    SeenIdsSame(state.versions);
    SeenIdsSame(t.versions);
    SameLineage(state, t);
  }

  lemma SameLineage(s: PageState, t: PageState)
    requires s.lineage == t.lineage && PublicIds(s.versions) == PublicIds(t.versions)
    ensures PublicLineage(s) == PublicLineage(t)
  {
  }

  // ---------------------------------------------------------------- membership only adds

  ghost predicate UniqueLabels(versions: seq<VersionRow>) {
    forall i, j :: 0 <= i < j < |versions| ==> versions[i].version != versions[j].version
  }

  ghost predicate UniqueIds(versions: seq<VersionRow>) {
    forall i, j :: 0 <= i < j < |versions| ==> versions[i].id != versions[j].id
  }

  /** With unique labels a member asking for a public version gets that version. */
  lemma SameVersionForMember(versions: seq<VersionRow>, want: string)
    requires want != "" && UniqueLabels(versions) && CurrentOf(versions, false, want).Some?
    ensures CurrentOf(versions, true, want) == CurrentOf(versions, false, want)
  {
    hide Filter, StableSort;
    var v := CurrentOf(versions, false, want).value;
    CurrentIsVisible(versions, false, want);
    FilterMember(versions, Wanted(true, want), v);
    CurrentIsVisible(versions, true, want);
  }

  lemma OriginsGrow(state: PageState, v: VersionRow)
    ensures Subsequence(OriginsOf(state, false, v), OriginsOf(state, true, v))
  {
    hide Gather, Subsequence, Identity.ParseOriginRef, OriginLink;
    GatherGrows(v.originRefs, OriginRule(state, false), OriginRule(state, true));
  }

  lemma EventsGrow(state: PageState)
    ensures Subsequence(EventsOf(state, false), EventsOf(state, true))
  {
    hide Gather, Subsequence, UserOf;
    var some, all := Labels(state.versions, false), Labels(state.versions, true);
    GatherGrows(state.events, EventRule(state.users, some, false), EventRule(state.users, all, true));
  }

  lemma VersionsGrow(state: PageState, v: VersionRow)
    ensures Subsequence(SummariesOf(state, false, v), SummariesOf(state, true, v))
  {
    hide Filter, StableSort, Subsequence, SummaryOf;
    NewerIsStrict();
    var all := Filter(state.versions, Seen(true));
    var sorted := StableSort(all, Newer);
    FilterTwice(state.versions, Seen(true), Seen(false));
    StableSortFilter(all, Newer, Seen(false));
    SubsequenceFilter(sorted, Seen(false));
    SubsequenceMap(StableSort(Filter(state.versions, Seen(false)), Newer), sorted, SummaryRule(state.asset.pid, v.id));
  }

  /** What a member's page adds to everyone's page of the same version, and what it does not. */
  ghost predicate Extends(p: AssetPage, q: AssetPage) {
    && q.pid == p.pid && q.assetType == p.assetType && q.title == p.title && q.slug == p.slug && q.createdAt == p.createdAt
    && (p.originProject.Some? ==> q.originProject == p.originProject)
    && q.version == p.version && q.rights == p.rights && q.creators == p.creators && q.metadata == p.metadata
    && q.dependencies == p.dependencies && q.lineage == p.lineage && q.usedBy == p.usedBy
    && Subsequence(p.origin, q.origin) && Subsequence(p.versions, q.versions) && Subsequence(p.events, q.events)
  }

  lemma MembershipOnlyAdds(state: PageState, want: string)
    requires want != "" && UniqueLabels(state.versions) && PageOf(state, false, want).Some?
    ensures PageOf(state, true, want).Some? && Extends(PageOf(state, false, want).value, PageOf(state, true, want).value)
  {
    hide CurrentOf, OriginsOf, CreatorsOf, MetadataOf, DependenciesOf, LineageOf, UsagesOf, SummariesOf, EventsOf, FactsOfVersion, Subsequence;
    SameVersionForMember(state.versions, want);
    var v := CurrentOf(state.versions, false, want).value;
    OriginsGrow(state, v);
    EventsGrow(state);
    VersionsGrow(state, v);
  }

  /** The versions block lists exactly the versions the reader may see. */
  lemma SummaryOfVisible(state: PageState, member: bool, v: VersionRow, w: VersionRow)
    requires w in state.versions && MaySee(w, member)
    ensures SummaryOf(state.asset.pid, v.id, w) in SummariesOf(state, member, v)
  {
    hide Filter, StableSort, SummaryOf;
    var visible := Filter(state.versions, Seen(member));
    FilterMember(state.versions, Seen(member), w);
    StableSortBag(visible, Newer);
    assert w in multiset(StableSort(visible, Newer));
    var i :| 0 <= i < |visible| && StableSort(visible, Newer)[i] == w;
    assert SummariesOf(state, member, v)[i] == SummaryRule(state.asset.pid, v.id)(w);
  }

  /** An event names only a version the versions block names too. */
  lemma EventLabelsListed(state: PageState, member: bool, want: string, e: PageEvent)
    requires PageOf(state, member, want).Some? && e in PageOf(state, member, want).value.events && e.version != ""
    ensures exists s :: s in PageOf(state, member, want).value.versions && s.version == e.version
  {
    hide CurrentOf, OriginsOf, CreatorsOf, MetadataOf, DependenciesOf, LineageOf, UsagesOf, SummariesOf, FactsOfVersion, Gather, UserOf;
    var labels := Labels(state.versions, member);
    GatherMember(state.events, EventRule(state.users, labels, member), e);
    assert e.version in labels;
    var w :| w in state.versions && MaySee(w, member) && w.version == e.version;
    var v := CurrentOf(state.versions, member, want).value;
    SummaryOfVisible(state, member, v, w);
    assert SummaryOf(state.asset.pid, v.id, w) in PageOf(state, member, want).value.versions;
  }

  // ---------------------------------------------------------------- the scan and the sort

  /** Asked for no version in particular, the page renders the first one it lists. */
  lemma RendersFirstListed(state: PageState, member: bool)
    requires PageOf(state, member, "").Some?
    ensures var page := PageOf(state, member, "").value;
            page.versions != [] && page.versions[0].current && page.versions[0].version == page.version.version
            && page.versions[0].integrityHash == page.version.integrityHash && page.versions[0].url == page.version.url
  {
    hide OriginsOf, CreatorsOf, MetadataOf, DependenciesOf, LineageOf, UsagesOf, EventsOf, Filter, StableSort, Identity.AssetVersionUrl;
  }

  /** A list whose rows have unique ids holds each row once, sorted or not. */
  lemma {:induction false} FilterUniqueIds(versions: seq<VersionRow>, keep: VersionRow -> bool)
    requires UniqueIds(versions)
    ensures UniqueIds(Filter(versions, keep))
  {
    if versions != [] {
      var t, last := versions[..|versions| - 1], versions[|versions| - 1];
      FilterUniqueIds(t, keep);
      forall w | w in Filter(t, keep) ensures w.id != last.id {
        FilterMember(t, keep, w);
      }
    }
  }

  lemma {:induction false} InsertUniqueIds(x: VersionRow, s: seq<VersionRow>)
    requires UniqueIds(s) && forall i :: 0 <= i < |s| ==> s[i].id != x.id
    ensures UniqueIds(Insert(x, s, Newer))
  {
    hide Newer;
    if s != [] && Newer(s[0], x) {
      var rest := Insert(x, s[1..], Newer);
      InsertUniqueIds(x, s[1..]);
      InsertBag(x, s[1..], Newer);
      forall j | 0 <= j < |rest| ensures rest[j].id != s[0].id {
        assert rest[j] in multiset(rest);
        assert rest[j] == x || rest[j] in s[1..];
      }
    }
  }

  lemma {:induction false} SortUniqueIds(s: seq<VersionRow>)
    requires UniqueIds(s)
    ensures UniqueIds(StableSort(s, Newer))
  {
    hide Newer, Insert;
    if s != [] {
      var sorted := StableSort(s[1..], Newer);
      SortUniqueIds(s[1..]);
      StableSortBag(s[1..], Newer);
      forall i | 0 <= i < |sorted| ensures sorted[i].id != s[0].id {
        assert sorted[i] in multiset(sorted);
        assert sorted[i] in s[1..];
      }
      InsertUniqueIds(s[0], sorted);
    }
  }

  /** For every request exactly one listed version is marked, and it is the rendered one. */
  lemma ExactlyOneCurrent(state: PageState, member: bool, want: string)
    requires UniqueIds(state.versions) && PageOf(state, member, want).Some?
    ensures var page := PageOf(state, member, want).value;
            exists i :: 0 <= i < |page.versions| && page.versions[i].current && page.versions[i].version == page.version.version
              && forall j :: 0 <= j < |page.versions| && j != i ==> !page.versions[j].current
  {
    hide OriginsOf, CreatorsOf, MetadataOf, DependenciesOf, LineageOf, UsagesOf, EventsOf, Filter, StableSort, CurrentOf, Identity.AssetVersionUrl, UserOf;
    var page := PageOf(state, member, want).value;
    var v := CurrentOf(state.versions, member, want).value;
    var visible := Filter(state.versions, Seen(member));
    var rows := StableSort(visible, Newer);
    CurrentIsVisible(state.versions, member, want);
    FilterMember(state.versions, Seen(member), v);
    StableSortBag(visible, Newer);
    assert v in multiset(rows);
    var i :| 0 <= i < |rows| && rows[i] == v;
    FilterUniqueIds(state.versions, Seen(member));
    SortUniqueIds(visible);
    assert page.versions[i] == SummaryOf(state.asset.pid, v.id, v);
    forall j | 0 <= j < |page.versions| && j != i ensures !page.versions[j].current {
      assert page.versions[j] == SummaryOf(state.asset.pid, v.id, rows[j]);
    }
  }
}
