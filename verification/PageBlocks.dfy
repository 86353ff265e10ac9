/** What stands in each block of the page, entry by entry, in terms of the stored rows. */
module PageBlocks {
  import opened Options
  import opened Ordering
  import opened Gate
  import opened Preview
  import opened Page
  import opened PageProofs
  import PreviewBlocks
  import Manifest
  import Identity
  import Text

  /** The version the page renders. */
  ghost predicate Renders(state: PageState, member: bool, want: string, v: VersionRow) {
    CurrentOf(state.versions, member, want) == Some(v)
  }

  /** A page is rendered exactly when a version the reader may see bears the wanted label, or, with
      none wanted, when there is one at all. */
  lemma RenderedExactly(state: PageState, member: bool, want: string)
    ensures PageOf(state, member, want).Some?
       <==> exists i :: 0 <= i < |state.versions| && (member || state.versions[i].visibility == Public) && (want == "" || state.versions[i].version == want)
    ensures forall v :: Renders(state, member, want, v) ==> v in state.versions && (member || v.visibility == Public) && (want == "" || v.version == want)
  {
    hide Filter, StableSort, PageFor;
    var visible := Filter(state.versions, Seen(member));
    StableSortBag(visible, Newer);
    forall i | 0 <= i < |state.versions| ensures state.versions[i] in visible <==> MaySee(state.versions[i], member) {
      FilterMember(state.versions, Seen(member), state.versions[i]);
    }
    forall i | 0 <= i < |state.versions| ensures state.versions[i] in Filter(state.versions, Wanted(member, want)) <==> Wanted(member, want)(state.versions[i]) {
      FilterMember(state.versions, Wanted(member, want), state.versions[i]);
    }
    if PageOf(state, member, want).Some? {
      CurrentIsVisible(state.versions, member, want);
    }
  }

  // ---------------------------------------------------------------- the head

  /** A user identity as stored, when the id is not empty and known. */
  ghost predicate IsUser(state: PageState, id: string, shown: Option<User>) {
    shown == if id != "" && id in state.users then Some(state.users[id]) else None
  }

  /** The head speaks of the asset and of the rendered version. */
  lemma PageHead(state: PageState, member: bool, want: string, v: VersionRow)
    requires Renders(state, member, want, v)
    ensures PageOf(state, member, want).Some?
    ensures var page := PageOf(state, member, want).value;
            && page.pid == state.asset.pid && page.assetType == state.asset.assetType && page.title == state.asset.title
            && page.slug == state.asset.slug && page.createdAt == state.asset.createdAt
            && page.version.version == v.version && page.version.visibility == v.visibility
            && page.version.integrityHash == v.integrityHash && page.version.publishedAt == v.publishedAt
            && page.version.url == "/assets/" + state.asset.pid + "/" + v.version
            && IsUser(state, v.publishedBy, page.version.publishedBy)
            && (v.rights == "" ==> page.rights == None) && (v.rights != "" ==> page.rights == Some(v.rights))
            && (page.originProject.Some? <==> state.project.id != "" && (state.project.visibility == Public || member))
            && (page.originProject.Some? ==> page.originProject.value == state.project)
  {
    hide OriginsOf, CreatorsOf, MetadataOf, DependenciesOf, LineageOf, UsagesOf, SummariesOf, EventsOf, CurrentOf;
  }

  // ---------------------------------------------------------------- origin

  /** The page of an origin entity: a project's overview, a release's page, or none. */
  ghost predicate IsLink(kind: Identity.OriginKind, value: string, projectId: string, link: string) {
    && (kind.Project? ==> link == "/projects/" + projectId)
    && (kind.Release? ==> link == "/projects/" + projectId + "/releases/" + value)
    && (kind.State? || kind.ObjectVersion? ==> link == "")
  }

  /** The ref resolved into a project the reader may be shown. */
  ghost predicate OriginShown(state: PageState, member: bool, st: StoredRef) {
    && st.resolved
    && (st.projectId == state.asset.originProjectId ==> state.project.id != "" && (state.project.visibility == Public || member))
    && (st.projectId != state.asset.originProjectId ==> st.projectVisibility == Public)
  }

  ghost predicate DescribesRef(x: PageOrigin, raw: string, parsed: (Identity.OriginKind, string), st: StoredRef) {
    && x.ref == raw && x.kind == parsed.0 && x.projectId == st.projectId && IsLink(parsed.0, parsed.1, st.projectId, x.link)
    && (st.carried.Some? ==> x.title == st.carried.value.title) && (st.carried.None? ==> x.title == "")
  }

  ghost predicate ShowsRef(state: PageState, member: bool, raw: string, x: PageOrigin) {
    var parsed := Identity.ParseOriginRef(raw);
    parsed.Some? && raw in state.refs && OriginShown(state, member, state.refs[raw]) && DescribesRef(x, raw, parsed.value, state.refs[raw])
  }

  lemma OriginEntryExactly(state: PageState, member: bool, raw: string, x: PageOrigin)
    ensures OriginRule(state, member)(raw) == Some(x) <==> ShowsRef(state, member, raw, x)
  {
    hide Identity.ParseOriginRef;
  }

  lemma OriginListed(state: PageState, member: bool, want: string, v: VersionRow, x: PageOrigin)
    requires Renders(state, member, want, v)
    ensures x in PageOf(state, member, want).value.origin <==> exists i :: 0 <= i < |v.originRefs| && ShowsRef(state, member, v.originRefs[i], x)
  {
    hide CreatorsOf, MetadataOf, DependenciesOf, LineageOf, UsagesOf, SummariesOf, EventsOf, CurrentOf, FactsOfVersion, Gather, ShowsRef;
    GatherExactly(v.originRefs, OriginRule(state, member), x);
    forall i | 0 <= i < |v.originRefs|
      ensures OriginRule(state, member)(v.originRefs[i]) == Some(x) <==> ShowsRef(state, member, v.originRefs[i], x)
    {
      OriginEntryExactly(state, member, v.originRefs[i], x);
    }
  }

  // ---------------------------------------------------------------- creators

  ghost predicate ShowsParty(state: PageState, p: Party, x: PageCreator) {
    && x.kind == p.kind && x.role == p.role
    && (|| (&& p.kind == "user" && p.partyId in state.users
            && var u := state.users[p.partyId]; x.partyId == u.userId && x.handle == u.handle && x.displayName == u.displayName)
        || (&& p.kind == "organization" && p.partyId in state.organizations
            && var o := state.organizations[p.partyId]; x.partyId == o.id && x.handle == o.slug && x.displayName == o.name))
  }

  lemma CreatorEntryExactly(state: PageState, p: Party, x: PageCreator)
    ensures CreatorRule(state)(p) == Some(x) <==> ShowsParty(state, p, x)
  {
  }

  /** A credited party is shown when its identity is known, under its own kind and role. */
  lemma CreatorListed(state: PageState, member: bool, want: string, v: VersionRow, x: PageCreator)
    requires Renders(state, member, want, v)
    ensures x in PageOf(state, member, want).value.creators
       <==> v.id in state.parties && exists i :: 0 <= i < |state.parties[v.id]| && ShowsParty(state, state.parties[v.id][i], x)
  {
    hide OriginsOf, MetadataOf, DependenciesOf, LineageOf, UsagesOf, SummariesOf, EventsOf, CurrentOf, FactsOfVersion, Gather, ShowsParty;
    var parties := PartiesOf(state, v.id);
    GatherExactly(parties, CreatorRule(state), x);
    forall i | 0 <= i < |parties| ensures CreatorRule(state)(parties[i]) == Some(x) <==> ShowsParty(state, parties[i], x) {
      CreatorEntryExactly(state, parties[i], x);
    }
  }

  // ---------------------------------------------------------------- dependencies

  /** A pin that names nothing stored shows its own text; one the network can open shows what it
      names; any other shows nothing. */
  ghost predicate ShowsPin(state: PageState, pin: string, x: PageDependency) {
    && x.pin == pin
    && if pin in state.pins && state.pins[pin].resolved then
         var d := state.pins[pin].pinned;
         && d.visibility == Public && d.projectVisibility == Public
         && x.resolved && x.public && x.title == d.title && x.assetType == state.pins[pin].assetType
         && x.url == "/assets/" + d.pid + "/" + d.version
       else !x.resolved && !x.public && x.title == "" && x.assetType == "" && x.url == ""
  }

  lemma ShownPin(state: PageState, pin: string, x: PageDependency)
    ensures ShowsPin(state, pin, x) ==> x.pin == pin
  {
  }

  lemma DependencyEntryExactly(state: PageState, pin: string, x: PageDependency)
    ensures DependencyRule(state.pins)(pin) == Some(x) <==> ShowsPin(state, pin, x)
  {
  }

  /** The rendered version's manifest reads, and lists the pin. */
  ghost predicate Declares(v: VersionRow, pin: string) {
    var m := Manifest.ParseManifest(v.manifest);
    m.Ok? && pin in m.manifest.Pins()
  }

  lemma DependencyListed(state: PageState, member: bool, want: string, v: VersionRow, x: PageDependency)
    requires Renders(state, member, want, v)
    ensures x in PageOf(state, member, want).value.dependencies <==> Declares(v, x.pin) && ShowsPin(state, x.pin, x)
  {
    hide OriginsOf, CreatorsOf, MetadataOf, LineageOf, UsagesOf, SummariesOf, EventsOf, CurrentOf, FactsOfVersion, Gather, ShowsPin,
      Manifest.ParseManifest;
    var pins := PinsOfVersion(v);
    GatherExactly(pins, DependencyRule(state.pins), x);
    forall i | 0 <= i < |pins| ensures DependencyRule(state.pins)(pins[i]) == Some(x) <==> pins[i] == x.pin && ShowsPin(state, pins[i], x) {
      DependencyEntryExactly(state, pins[i], x);
      ShownPin(state, pins[i], x);
    }
  }

  // ---------------------------------------------------------------- lineage

  /** The entry names a version the network can open, under the edge's relation. */
  ghost predicate NamesVersion(x: PageLineage, relation: string, d: VersionRef) {
    && d.visibility == Public && d.projectVisibility == Public
    && x.relation == relation && x.pid == d.pid && x.version == d.version && x.title == d.title
    && x.url == "/assets/" + d.pid + "/" + d.version
  }

  /** The rendered version is the edge's parent and the entry its child, or the other way round. */
  ghost predicate ShowsEdge(e: Edge, id: string, x: PageLineage) {
    || (x.direction == ChildEnd && id != "" && e.parent.versionId == id && NamesVersion(x, e.relation, e.child.named))
    || (&& x.direction == ParentEnd && id != "" && e.parent.versionId != id && e.child.versionId == id
        && NamesVersion(x, e.relation, e.parent.named))
  }

  lemma LineageEntryExactly(e: Edge, id: string, x: PageLineage)
    ensures LineageRule(id)(e) == Some(x) <==> ShowsEdge(e, id, x)
  {
  }

  lemma LineageListed(state: PageState, member: bool, want: string, v: VersionRow, x: PageLineage)
    requires Renders(state, member, want, v)
    ensures x in PageOf(state, member, want).value.lineage <==> exists i :: 0 <= i < |state.lineage| && ShowsEdge(state.lineage[i], v.id, x)
  {
    hide OriginsOf, CreatorsOf, MetadataOf, DependenciesOf, UsagesOf, SummariesOf, EventsOf, CurrentOf, FactsOfVersion, Gather, ShowsEdge;
    GatherExactly(state.lineage, LineageRule(v.id), x);
    forall i | 0 <= i < |state.lineage| ensures LineageRule(v.id)(state.lineage[i]) == Some(x) <==> ShowsEdge(state.lineage[i], v.id, x) {
      LineageEntryExactly(state.lineage[i], v.id, x);
    }
  }

  // ---------------------------------------------------------------- usages

  ghost predicate ShowsUsage(u: Usage, id: string, x: PageUsage) {
    && u.assetVersionId == id && u.visibilityOfUsage == Public && u.project.visibility == Public
    && x.projectId == u.project.id && x.projectName == u.project.name && x.projectSlug == u.project.slug
    && x.dependencyType == u.dependencyType && x.createdAt == u.createdAt
  }

  lemma UsageListed(state: PageState, member: bool, want: string, v: VersionRow, x: PageUsage)
    requires Renders(state, member, want, v)
    ensures x in PageOf(state, member, want).value.usedBy <==> exists i :: 0 <= i < |state.usages| && ShowsUsage(state.usages[i], v.id, x)
  {
    hide OriginsOf, CreatorsOf, MetadataOf, DependenciesOf, LineageOf, SummariesOf, EventsOf, CurrentOf, FactsOfVersion, Gather;
    GatherExactly(state.usages, UsageRule(v.id), x);
    forall i | 0 <= i < |state.usages| ensures UsageRule(v.id)(state.usages[i]) == Some(x) <==> ShowsUsage(state.usages[i], v.id, x) {
    }
  }

  // ---------------------------------------------------------------- versions

  ghost predicate ShowsVersion(state: PageState, currentId: string, w: VersionRow, x: Summary) {
    && x.version == w.version && x.url == "/assets/" + state.asset.pid + "/" + w.version && x.visibility == w.visibility
    && x.integrityHash == w.integrityHash && x.publishedAt == w.publishedAt && (x.current <==> w.id == currentId)
  }

  lemma VersionListed(state: PageState, member: bool, want: string, v: VersionRow, x: Summary)
    requires Renders(state, member, want, v)
    ensures x in PageOf(state, member, want).value.versions
       <==> exists i :: 0 <= i < |state.versions| && (member || state.versions[i].visibility == Public) && ShowsVersion(state, v.id, state.versions[i], x)
  {
    hide OriginsOf, CreatorsOf, MetadataOf, DependenciesOf, LineageOf, UsagesOf, EventsOf, CurrentOf, FactsOfVersion, Filter, StableSort,
      Identity.AssetVersionUrl;
    UrlOfVersion(state.asset.pid);
    var visible := Filter(state.versions, Seen(member));
    var rows := StableSort(visible, Newer);
    StableSortBag(visible, Newer);
    if x in PageOf(state, member, want).value.versions {
      var k :| 0 <= k < |rows| && x == SummaryOf(state.asset.pid, v.id, rows[k]);
      assert rows[k] in multiset(rows) && rows[k] in multiset(visible);
      FilterMember(state.versions, Seen(member), rows[k]);
    }
    forall i | 0 <= i < |state.versions| && (member || state.versions[i].visibility == Public) && ShowsVersion(state, v.id, state.versions[i], x)
      ensures x in PageOf(state, member, want).value.versions
    {
      SummaryOfVisible(state, member, v, state.versions[i]);
      assert x == SummaryOf(state.asset.pid, v.id, state.versions[i]);
    }
  }

  /** Newest first, and of equally new ones the smaller label first. */
  lemma VersionsSorted(state: PageState, member: bool, want: string, i: nat, j: nat)
    requires PageOf(state, member, want).Some? && i < j < |PageOf(state, member, want).value.versions|
    ensures var shown := PageOf(state, member, want).value.versions;
            || shown[i].publishedAt > shown[j].publishedAt
            || (shown[i].publishedAt == shown[j].publishedAt && !Text.StringLess(shown[j].version, shown[i].version))
  {
    hide OriginsOf, CreatorsOf, MetadataOf, DependenciesOf, LineageOf, UsagesOf, EventsOf, CurrentOf, FactsOfVersion, Filter, StableSort,
      Identity.AssetVersionUrl;
    var visible := Filter(state.versions, Seen(member));
    var rows := StableSort(visible, Newer);
    NewerIsStrict();
    StableSortSorted(visible, Newer);
    assert !Newer(rows[j], rows[i]);
  }

  lemma UrlOfVersion(pid: string)
    ensures forall version :: Identity.AssetVersionUrl(pid, version) == "/assets/" + pid + "/" + version
  {
  }

  // ---------------------------------------------------------------- events

  /** The reader may see the event, and the version it names, if it names one. */
  ghost predicate ShowsEvent(state: PageState, member: bool, e: Event, x: PageEvent) {
    && (member || e.visibility == Public)
    && (e.assetVersion == "" || exists w :: w in state.versions && (member || w.visibility == Public) && w.version == e.assetVersion)
    && x.kind == e.kind && x.occurredAt == e.occurredAt && x.version == e.assetVersion && IsUser(state, e.actorId, x.actor)
  }

  lemma EventListed(state: PageState, member: bool, want: string, v: VersionRow, x: PageEvent)
    requires Renders(state, member, want, v)
    ensures x in PageOf(state, member, want).value.events <==> exists i :: 0 <= i < |state.events| && ShowsEvent(state, member, state.events[i], x)
  {
    hide OriginsOf, CreatorsOf, MetadataOf, DependenciesOf, LineageOf, UsagesOf, SummariesOf, CurrentOf, FactsOfVersion, Gather;
    var labels := Labels(state.versions, member);
    var rule := EventRule(state.users, labels, member);
    GatherExactly(state.events, rule, x);
    forall i | 0 <= i < |state.events| ensures rule(state.events[i]) == Some(x) <==> ShowsEvent(state, member, state.events[i], x) {
    }
  }

  // ---------------------------------------------------------------- metadata

  /** The metadata block lists the manifest's keys with their values, ascending. */
  lemma MetadataListed(state: PageState, member: bool, want: string, v: VersionRow)
    requires Renders(state, member, want, v) && Manifest.ParseManifest(v.manifest).Ok?
    ensures var block := Manifest.ParseManifest(v.manifest).manifest.Block();
            var shown := PageOf(state, member, want).value.metadata;
            && (forall i :: 0 <= i < |shown| ==> shown[i].key in block && shown[i].value == block[shown[i].key])
            && (forall k :: k in block ==> exists i :: 0 <= i < |shown| && shown[i].key == k)
            && (forall i, j :: 0 <= i < j < |shown| ==> Text.StringLess(shown[i].key, shown[j].key))
  {
    hide OriginsOf, CreatorsOf, DependenciesOf, LineageOf, UsagesOf, SummariesOf, EventsOf, CurrentOf, FactsOfVersion, Manifest.ParseManifest,
      Manifest.SortedKeys;
    var block := Manifest.ParseManifest(v.manifest).manifest.Block();
    PreviewBlocks.EntriesListed(block);
  }
}
