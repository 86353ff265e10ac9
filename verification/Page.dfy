/** The asset page: eleven blocks about one asset, each filtered by what the reader may see. */
module Page {
  import opened Options
  import opened Ordering
  import opened Gate
  import opened Manifest
  import opened Preview
  import Identity
  import Text

  // ---------------------------------------------------------------- the reader's answer

  datatype AssetRow = AssetRow(pid: string, assetType: string, title: string, slug: string, originProjectId: string, createdAt: int)

  datatype ProjectRow = ProjectRow(id: string, name: string, slug: string, visibility: Visibility)

  datatype VersionRow = VersionRow(
    id: string,
    version: string,
    visibility: Visibility,
    integrityHash: string,
    publishedBy: string,
    publishedAt: int,
    manifest: string,
    rights: string,
    originRefs: seq<string>)

  datatype User = User(userId: string, handle: string, displayName: string)

  datatype Organization = Organization(id: string, slug: string, name: string)

  datatype Party = Party(role: string, kind: string, partyId: string)

  /** A version elsewhere in the network: one end of a lineage edge, or what a pin names. */
  datatype VersionRef = VersionRef(pid: string, version: string, visibility: Visibility, projectVisibility: Visibility, title: string)

  datatype PinRow = PinRow(resolved: bool, pinned: VersionRef, assetType: string)

  datatype LineageEnd = LineageEnd(versionId: string, named: VersionRef)

  datatype Edge = Edge(relation: string, parent: LineageEnd, child: LineageEnd)

  datatype Usage = Usage(
    assetVersionId: string,
    project: ProjectRow,
    visibilityOfUsage: Visibility,
    dependencyType: string,
    createdAt: int)

  datatype Event = Event(kind: string, visibility: Visibility, actorId: string, assetVersion: string, occurredAt: int)

  /** Everything the reader found for one asset, the private rows included. */
  datatype PageState = PageState(
    asset: AssetRow,
    project: ProjectRow,
    versions: seq<VersionRow>,
    users: map<string, User>,
    parties: map<string, seq<Party>>,
    organizations: map<string, Organization>,
    pins: map<string, PinRow>,
    refs: map<string, StoredRef>,
    lineage: seq<Edge>,
    usages: seq<Usage>,
    events: seq<Event>)

  // ---------------------------------------------------------------- the blocks

  datatype PageVersion = PageVersion(
    version: string,
    url: string,
    visibility: Visibility,
    integrityHash: string,
    publishedAt: int,
    publishedBy: Option<User>)

  datatype PageOrigin = PageOrigin(ref: string, kind: Identity.OriginKind, title: string, projectId: string, link: string)

  datatype PageCreator = PageCreator(kind: string, partyId: string, handle: string, displayName: string, role: string)

  datatype PageDependency = PageDependency(pin: string, resolved: bool, public: bool, title: string, assetType: string, url: string)

  datatype Direction = ParentEnd | ChildEnd

  datatype PageLineage = PageLineage(relation: string, direction: Direction, pid: string, version: string, url: string, title: string)

  datatype PageUsage = PageUsage(projectId: string, projectName: string, projectSlug: string, dependencyType: string, createdAt: int)

  datatype Summary = Summary(version: string, url: string, visibility: Visibility, integrityHash: string, publishedAt: int, current: bool)

  datatype PageEvent = PageEvent(kind: string, occurredAt: int, version: string, actor: Option<User>)

  datatype AssetPage = AssetPage(
    pid: string,
    assetType: string,
    title: string,
    slug: string,
    createdAt: int,
    originProject: Option<ProjectRow>,
    version: PageVersion,
    origin: seq<PageOrigin>,
    rights: Option<string>,
    creators: seq<PageCreator>,
    metadata: seq<PreviewMetadata>,
    dependencies: seq<PageDependency>,
    lineage: seq<PageLineage>,
    usedBy: seq<PageUsage>,
    versions: seq<Summary>,
    events: seq<PageEvent>)

  // ---------------------------------------------------------------- who may see what

  predicate MaySee(v: VersionRow, member: bool) {
    member || v.visibility == Public
  }

  function Seen(member: bool): VersionRow -> bool {
    (v: VersionRow) => MaySee(v, member)
  }

  function Wanted(member: bool, want: string): VersionRow -> bool {
    (v: VersionRow) => MaySee(v, member) && v.version == want
  }

  predicate MayRenderOwnProject(project: ProjectRow, member: bool) {
    project.id != "" && (project.visibility == Public || member)
  }

  /** Both axes: the version is public, and so is the project that serves it. */
  predicate MayLink(v: VersionRef) {
    v.visibility == Public && v.projectVisibility == Public
  }

  /** The page's order: newest first, then by label. */
  predicate Newer(a: VersionRow, b: VersionRow) {
    if a.publishedAt != b.publishedAt then a.publishedAt > b.publishedAt else Text.StringLess(a.version, b.version)
  }

  // ---------------------------------------------------------------- one entry of each block

  function UserOf(users: map<string, User>, id: string): Option<User> {
    if id != "" && id in users then Some(users[id]) else None
  }

  function OriginLink(kind: Identity.OriginKind, value: string, projectId: string): string {
    match kind
    case Project => "/projects/" + projectId
    case Release => "/projects/" + projectId + "/releases/" + value
    case _ => ""
  }

  /** A resolved ref whose project the reader may be shown. */
  predicate RefShown(state: PageState, member: bool, st: StoredRef) {
    && st.resolved
    && if st.projectId == state.asset.originProjectId then MayRenderOwnProject(state.project, member) else st.projectVisibility == Public
  }

  function OriginEntry(state: PageState, member: bool, raw: string): Option<PageOrigin> {
    match Identity.ParseOriginRef(raw)
    case None => None
    case Some(parsed) =>
      if raw in state.refs && RefShown(state, member, state.refs[raw]) then
        var st := state.refs[raw];
        Some(PageOrigin(raw, parsed.0, if st.carried.Some? then st.carried.value.title else "", st.projectId,
                        OriginLink(parsed.0, parsed.1, st.projectId)))
      else None
  }

  function CreatorEntry(state: PageState, p: Party): Option<PageCreator> {
    if p.kind == "user" && p.partyId in state.users then
      var u := state.users[p.partyId];
      Some(PageCreator(p.kind, u.userId, u.handle, u.displayName, p.role))
    else if p.kind == "organization" && p.partyId in state.organizations then
      var o := state.organizations[p.partyId];
      Some(PageCreator(p.kind, o.id, o.slug, o.name, p.role))
    else None
  }

  /** A pin that names no stored version shows its own bytes; one whose version the network
      cannot open shows nothing. */
  function DependencyEntry(pins: map<string, PinRow>, pin: string): Option<PageDependency> {
    if pin !in pins || !pins[pin].resolved then Some(PageDependency(pin, false, false, "", "", ""))
    else if !MayLink(pins[pin].pinned) then None
    else
      var v := pins[pin].pinned;
      Some(PageDependency(pin, true, true, v.title, pins[pin].assetType, Identity.AssetVersionUrl(v.pid, v.version)))
  }

  predicate Names(end: LineageEnd, id: string) {
    end.versionId != "" && end.versionId == id
  }

  function LinkTo(relation: string, direction: Direction, v: VersionRef): PageLineage {
    PageLineage(relation, direction, v.pid, v.version, Identity.AssetVersionUrl(v.pid, v.version), v.title)
  }

  function EndEntry(relation: string, direction: Direction, v: VersionRef): Option<PageLineage> {
    if MayLink(v) then Some(LinkTo(relation, direction, v)) else None
  }

  function LineageEntry(id: string, e: Edge): Option<PageLineage> {
    if Names(e.parent, id) then EndEntry(e.relation, ChildEnd, e.child.named)
    else if Names(e.child, id) then EndEntry(e.relation, ParentEnd, e.parent.named)
    else None
  }

  predicate UsageShown(u: Usage) {
    u.visibilityOfUsage == Public && u.project.visibility == Public
  }

  function UsageEntry(id: string, u: Usage): Option<PageUsage> {
    if u.assetVersionId == id && UsageShown(u)
    then Some(PageUsage(u.project.id, u.project.name, u.project.slug, u.dependencyType, u.createdAt))
    else None
  }

  /** The labels of the versions the reader may see. */
  function Labels(versions: seq<VersionRow>, member: bool): set<string> {
    set v | v in versions && MaySee(v, member) :: v.version
  }

  function EventEntry(users: map<string, User>, labels: set<string>, member: bool, e: Event): Option<PageEvent> {
    if (member || e.visibility == Public) && (e.assetVersion == "" || e.assetVersion in labels)
    then Some(PageEvent(e.kind, e.occurredAt, e.assetVersion, UserOf(users, e.actorId)))
    else None
  }

  function OriginRule(state: PageState, member: bool): string -> Option<PageOrigin> {
    raw => OriginEntry(state, member, raw)
  }

  function CreatorRule(state: PageState): Party -> Option<PageCreator> {
    p => CreatorEntry(state, p)
  }

  function DependencyRule(pins: map<string, PinRow>): string -> Option<PageDependency> {
    pin => DependencyEntry(pins, pin)
  }

  function LineageRule(id: string): Edge -> Option<PageLineage> {
    e => LineageEntry(id, e)
  }

  function UsageRule(id: string): Usage -> Option<PageUsage> {
    u => UsageEntry(id, u)
  }

  function EventRule(users: map<string, User>, labels: set<string>, member: bool): Event -> Option<PageEvent> {
    e => EventEntry(users, labels, member, e)
  }

  function SummaryRule(pid: string, currentId: string): VersionRow -> Summary {
    v => SummaryOf(pid, currentId, v)
  }

  function SummaryOf(pid: string, currentId: string, v: VersionRow): Summary {
    Summary(v.version, Identity.AssetVersionUrl(pid, v.version), v.visibility, v.integrityHash, v.publishedAt, v.id == currentId)
  }

  // ---------------------------------------------------------------- the blocks as functions

  /** The version to render: the first visible one with the wanted label, or the head of the
      visible versions in the page's order. */
  function CurrentOf(versions: seq<VersionRow>, member: bool, want: string): Option<VersionRow> {
    var choice := if want != "" then Filter(versions, Wanted(member, want)) else StableSort(Filter(versions, Seen(member)), Newer);
    if choice == [] then None else Some(choice[0])
  }

  function OriginsOf(state: PageState, member: bool, v: VersionRow): seq<PageOrigin> {
    Gather(v.originRefs, OriginRule(state, member))
  }

  function PartiesOf(state: PageState, id: string): seq<Party> {
    if id in state.parties then state.parties[id] else []
  }

  function CreatorsOf(state: PageState, v: VersionRow): seq<PageCreator> {
    Gather(PartiesOf(state, v.id), CreatorRule(state))
  }

  function MetadataOf(v: VersionRow): seq<PreviewMetadata> {
    match ParseManifest(v.manifest)
    case Ok(m) => MetadataEntries(m.Block())
    case Refused(_) => []
  }

  function PinsOfVersion(v: VersionRow): seq<string> {
    match ParseManifest(v.manifest)
    case Ok(m) => m.Pins()
    case Refused(_) => []
  }

  function DependenciesOf(state: PageState, v: VersionRow): seq<PageDependency> {
    Gather(PinsOfVersion(v), DependencyRule(state.pins))
  }

  function LineageOf(state: PageState, v: VersionRow): seq<PageLineage> {
    Gather(state.lineage, LineageRule(v.id))
  }

  function UsagesOf(state: PageState, v: VersionRow): seq<PageUsage> {
    Gather(state.usages, UsageRule(v.id))
  }

  function SummariesOf(state: PageState, member: bool, v: VersionRow): seq<Summary> {
    Map(StableSort(Filter(state.versions, Seen(member)), Newer), SummaryRule(state.asset.pid, v.id))
  }

  function EventsOf(state: PageState, member: bool): seq<PageEvent> {
    Gather(state.events, EventRule(state.users, Labels(state.versions, member), member))
  }

  function FactsOfVersion(state: PageState, v: VersionRow): PageVersion {
    PageVersion(v.version, Identity.AssetVersionUrl(state.asset.pid, v.version), v.visibility, v.integrityHash, v.publishedAt,
                UserOf(state.users, v.publishedBy))
  }

  function PageFor(state: PageState, member: bool, v: VersionRow): AssetPage {
    AssetPage(
      state.asset.pid, state.asset.assetType, state.asset.title, state.asset.slug, state.asset.createdAt,
      if MayRenderOwnProject(state.project, member) then Some(state.project) else None,
      FactsOfVersion(state, v),
      OriginsOf(state, member, v),
      if v.rights == "" then None else Some(v.rights),
      CreatorsOf(state, v),
      MetadataOf(v),
      DependenciesOf(state, v),
      LineageOf(state, v),
      UsagesOf(state, v),
      SummariesOf(state, member, v),
      EventsOf(state, member))
  }

  /** The page, or nothing when no version may be shown to this reader. */
  function PageOf(state: PageState, member: bool, want: string): Option<AssetPage> {
    match CurrentOf(state.versions, member, want)
    case None => None
    case Some(v) => Some(PageFor(state, member, v))
  }

  // ---------------------------------------------------------------- the order

  /** Newest-then-label orders the versions strictly, and ties only equal labels. */
  lemma NewerIsStrict()
    ensures StrictWeak(Newer)
  {
    forall a, b | Newer(a, b) ensures !Newer(b, a) {
      Text.StringLessAsymmetric(a.version, b.version);
    }
    forall a, b, c | Newer(a, b) ensures Newer(a, c) || Newer(c, b) {
      if Text.StringLess(a.version, b.version) {
        Text.StringLessBetween(a.version, b.version, c.version);
      }
    }
  }

  lemma NewerIsTotal(a: VersionRow, b: VersionRow)
    requires a.version != b.version
    ensures Newer(a, b) != Newer(b, a)
  {
    Text.StringLessAsymmetric(a.version, b.version);
    Text.StringLessTotal(a.version, b.version);
  }

  // ---------------------------------------------------------------- the scan

  ghost predicate Best(visible: seq<VersionRow>, best: Option<VersionRow>) {
    match best
    case None => visible == []
    case Some(b) => exists k :: FirstLeast(visible, k, Newer) && visible[k] == b
  }

  lemma BestOfNone()
    ensures Best([], None)
  {
  }

  lemma FilterNone(s: seq<VersionRow>, keep: VersionRow -> bool)
    requires s == []
    ensures Filter(s, keep) == []
  {
  }

  lemma BestStep(visible: seq<VersionRow>, best: Option<VersionRow>, v: VersionRow)
    requires Best(visible, best)
    ensures Best(visible + [v], if best.None? || Newer(v, best.value) then Some(v) else best)
  {
    NewerIsStrict();
    var all := visible + [v];
    if best.None? {
      assert FirstLeast(all, 0, Newer);
    } else {
      var k :| FirstLeast(visible, k, Newer) && visible[k] == best.value;
      if Newer(v, best.value) {
        assert forall j :: 0 <= j < |visible| ==> !Newer(visible[j], visible[k]);
        assert FirstLeast(all, |visible|, Newer);
      } else {
        assert FirstLeast(all, k, Newer);
      }
    }
  }

  lemma BestIsHead(visible: seq<VersionRow>, best: Option<VersionRow>)
    requires Best(visible, best)
    ensures best == if StableSort(visible, Newer) == [] then None else Some(StableSort(visible, Newer)[0])
  {
    NewerIsStrict();
    StableSortBag(visible, Newer);
    if best.Some? {
      var k :| FirstLeast(visible, k, Newer) && visible[k] == best.value;
      StableSortHead(visible, Newer, k);
    }
  }

  lemma {:induction false} FilterPrefixHead(s: seq<VersionRow>, i: nat, keep: VersionRow -> bool)
    requires i < |s| && Filter(s[..i], keep) == [] && keep(s[i])
    ensures Filter(s, keep) != [] && Filter(s, keep)[0] == s[i]
    decreases |s|
  {
    if i == |s| - 1 {
      assert s[..|s| - 1] == s[..i];
    } else {
      assert s[..|s| - 1][..i] == s[..i];
      FilterPrefixHead(s[..|s| - 1], i, keep);
    }
  }

  /** The linear scan picks what sorting would put first. */
  method CurrentVersion(versions: seq<VersionRow>, member: bool, want: string) returns (r: Option<VersionRow>)
    ensures r == CurrentOf(versions, member, want)
  {
    hide Filter, StableSort, Best, MaySee, Newer;
    var best: Option<VersionRow> := None;
    FilterNone(versions[..0], Seen(member));
    FilterNone(versions[..0], Wanted(member, want));
    BestOfNone();
    for i := 0 to |versions|
      invariant want == "" ==> Best(Filter(versions[..i], Seen(member)), best)
      invariant want != "" ==> best == None && Filter(versions[..i], Wanted(member, want)) == []
    {
      var v := versions[i];
      assert versions[..i + 1] == versions[..i] + [v];
      FilterSnoc(versions[..i], v, Seen(member));
      FilterSnoc(versions[..i], v, Wanted(member, want));
      assert Filter(versions[..i], Seen(member)) + [] == Filter(versions[..i], Seen(member));
      if !MaySee(v, member) {
        continue;
      }
      if want != "" {
        if v.version == want {
          FilterPrefixHead(versions, i, Wanted(member, want));
          return Some(v);
        }
        continue;
      }
      BestStep(Filter(versions[..i], Seen(member)), best, v);
      if best.None? || Newer(v, best.value) {
        best := Some(v);
      }
    }
    assert versions[..|versions|] == versions;
    if want == "" {
      BestIsHead(Filter(versions, Seen(member)), best);
    }
    r := best;
  }

  // ---------------------------------------------------------------- the block builders

  method BuildOrigins(state: PageState, member: bool, v: VersionRow) returns (out: seq<PageOrigin>)
    ensures out == OriginsOf(state, member, v)
  {
    hide Gather, Identity.ParseOriginRef, OriginLink;
    var refs := v.originRefs;
    out := [];
    GatherEmpty(refs[..0], OriginRule(state, member));
    for i := 0 to |refs|
      invariant out == Gather(refs[..i], OriginRule(state, member))
    {
      assert refs[..i + 1] == refs[..i] + [refs[i]];
      GatherSnoc(refs[..i], refs[i], OriginRule(state, member));
      var parsed := Identity.ParseOriginRef(refs[i]);
      if parsed.None? || refs[i] !in state.refs {
        continue;
      }
      var st := state.refs[refs[i]];
      if !st.resolved {
        continue;
      }
      if st.projectId == state.asset.originProjectId {
        if !MayRenderOwnProject(state.project, member) {
          continue;
        }
      } else if st.projectVisibility != Public {
        continue;
      }
      var title := if st.carried.Some? then st.carried.value.title else "";
      out := out + [PageOrigin(refs[i], parsed.value.0, title, st.projectId, OriginLink(parsed.value.0, parsed.value.1, st.projectId))];
    }
    assert refs[..|refs|] == refs;
  }

  method BuildCreators(state: PageState, v: VersionRow) returns (out: seq<PageCreator>)
    ensures out == CreatorsOf(state, v)
  {
    hide Gather;
    var parties := PartiesOf(state, v.id);
    out := [];
    GatherEmpty(parties[..0], CreatorRule(state));
    for i := 0 to |parties|
      invariant out == Gather(parties[..i], CreatorRule(state))
    {
      var p := parties[i];
      assert parties[..i + 1] == parties[..i] + [p];
      GatherSnoc(parties[..i], p, CreatorRule(state));
      if p.kind == "user" {
        if p.partyId in state.users {
          var u := state.users[p.partyId];
          out := out + [PageCreator(p.kind, u.userId, u.handle, u.displayName, p.role)];
        }
      } else if p.kind == "organization" {
        if p.partyId in state.organizations {
          var o := state.organizations[p.partyId];
          out := out + [PageCreator(p.kind, o.id, o.slug, o.name, p.role)];
        }
      }
    }
    assert parties[..|parties|] == parties;
  }

  method BuildDependencies(state: PageState, v: VersionRow) returns (out: seq<PageDependency>)
    ensures out == DependenciesOf(state, v)
  {
    hide Gather, PinsOfVersion, Identity.AssetVersionUrl;
    var pins := PinsOfVersion(v);
    out := [];
    GatherEmpty(pins[..0], DependencyRule(state.pins));
    for i := 0 to |pins|
      invariant out == Gather(pins[..i], DependencyRule(state.pins))
    {
      assert pins[..i + 1] == pins[..i] + [pins[i]];
      GatherSnoc(pins[..i], pins[i], DependencyRule(state.pins));
      if pins[i] !in state.pins || !state.pins[pins[i]].resolved {
        out := out + [PageDependency(pins[i], false, false, "", "", "")];
        continue;
      }
      var row := state.pins[pins[i]];
      if !MayLink(row.pinned) {
        continue;
      }
      out := out + [PageDependency(pins[i], true, true, row.pinned.title, row.assetType, Identity.AssetVersionUrl(row.pinned.pid, row.pinned.version))];
    }
    assert pins[..|pins|] == pins;
  }

  method BuildLineage(state: PageState, v: VersionRow) returns (out: seq<PageLineage>)
    ensures out == LineageOf(state, v)
  {
    hide Gather, LinkTo;
    var edges := state.lineage;
    out := [];
    GatherEmpty(edges[..0], LineageRule(v.id));
    for i := 0 to |edges|
      invariant out == Gather(edges[..i], LineageRule(v.id))
    {
      var e := edges[i];
      assert edges[..i + 1] == edges[..i] + [e];
      GatherSnoc(edges[..i], e, LineageRule(v.id));
      if Names(e.parent, v.id) {
        if !MayLink(e.child.named) {
          continue;
        }
        out := out + [LinkTo(e.relation, ChildEnd, e.child.named)];
      } else if Names(e.child, v.id) {
        if !MayLink(e.parent.named) {
          continue;
        }
        out := out + [LinkTo(e.relation, ParentEnd, e.parent.named)];
      }
    }
    assert edges[..|edges|] == edges;
  }

  method BuildUsages(state: PageState, v: VersionRow) returns (out: seq<PageUsage>)
    ensures out == UsagesOf(state, v)
  {
    hide Gather;
    var usages := state.usages;
    out := [];
    GatherEmpty(usages[..0], UsageRule(v.id));
    for i := 0 to |usages|
      invariant out == Gather(usages[..i], UsageRule(v.id))
    {
      var u := usages[i];
      assert usages[..i + 1] == usages[..i] + [u];
      GatherSnoc(usages[..i], u, UsageRule(v.id));
      if u.assetVersionId != v.id || u.visibilityOfUsage != Public || u.project.visibility != Public {
        continue;
      }
      out := out + [PageUsage(u.project.id, u.project.name, u.project.slug, u.dependencyType, u.createdAt)];
    }
    assert usages[..|usages|] == usages;
  }

  method BuildSummaries(state: PageState, member: bool, current: VersionRow) returns (out: seq<Summary>)
    ensures out == SummariesOf(state, member, current)
  {
    hide Filter, StableSort, SummaryOf;
    var visible: seq<VersionRow> := [];
    FilterNone(state.versions[..0], Seen(member));
    for i := 0 to |state.versions|
      invariant visible == Filter(state.versions[..i], Seen(member))
    {
      assert state.versions[..i + 1] == state.versions[..i] + [state.versions[i]];
      FilterSnoc(state.versions[..i], state.versions[i], Seen(member));
      if MaySee(state.versions[i], member) {
        visible := visible + [state.versions[i]];
      }
    }
    assert state.versions[..|state.versions|] == state.versions;
    visible := StableSort(visible, Newer);
    out := [];
    for i := 0 to |visible|
      invariant out == Map(visible[..i], SummaryRule(state.asset.pid, current.id))
    {
      out := out + [SummaryOf(state.asset.pid, current.id, visible[i])];
    }
    assert visible[..|visible|] == visible;
  }

  method BuildEvents(state: PageState, member: bool) returns (out: seq<PageEvent>)
    ensures out == EventsOf(state, member)
  {
    hide Gather, UserOf;
    var visible: set<string> := {};
    for i := 0 to |state.versions|
      invariant visible == Labels(state.versions[..i], member)
    {
      var v := state.versions[i];
      assert state.versions[..i + 1] == state.versions[..i] + [v];
      if MaySee(v, member) {
        visible := visible + {v.version};
      }
    }
    assert state.versions[..|state.versions|] == state.versions;
    var events, rule := state.events, EventRule(state.users, visible, member);
    out := [];
    GatherEmpty(events[..0], rule);
    for i := 0 to |events|
      invariant out == Gather(events[..i], rule)
    {
      var e := events[i];
      assert events[..i + 1] == events[..i] + [e];
      GatherSnoc(events[..i], e, rule);
      if !member && e.visibility != Public {
        continue;
      }
      if e.assetVersion != "" && e.assetVersion !in visible {
        continue;
      }
      out := out + [PageEvent(e.kind, e.occurredAt, e.assetVersion, UserOf(state.users, e.actorId))];
    }
    assert events[..|events|] == events;
  }

  method BuildMetadata(v: VersionRow) returns (out: seq<PreviewMetadata>)
    ensures out == MetadataOf(v)
  {
    hide ParseManifest, SortedKeys;
    match ParseManifest(v.manifest) {
      case Refused(_) => out := [];
      case Ok(m) =>
        var keys := SortedKeys(m.Block().Keys);
        out := [];
        for i := 0 to |keys|
          invariant out == MetadataEntries(m.Block())[..i]
        {
          assert keys[i] in keys;
          out := out + [PreviewMetadata(keys[i], m.Block()[keys[i]])];
        }
        assert MetadataEntries(m.Block())[..|keys|] == MetadataEntries(m.Block());
    }
  }

  /** The page builder: pick the version, then render every block. */
  method BuildPage(state: PageState, member: bool, want: string) returns (page: Option<AssetPage>)
    ensures page == PageOf(state, member, want)
  {
    hide CurrentOf, OriginsOf, CreatorsOf, MetadataOf, DependenciesOf, LineageOf, UsagesOf, SummariesOf, EventsOf, FactsOfVersion;
    var current := CurrentVersion(state.versions, member, want);
    if current.None? {
      return None;
    }
    var v := current.value;
    var creators := BuildCreators(state, v);
    var metadata := BuildMetadata(v);
    var versions := BuildSummaries(state, member, v);
    var events := BuildEvents(state, member);
    var origin := BuildOrigins(state, member, v);
    var dependencies := BuildDependencies(state, v);
    var lineage := BuildLineage(state, v);
    var usedBy := BuildUsages(state, v);
    page := Some(AssetPage(
      state.asset.pid, state.asset.assetType, state.asset.title, state.asset.slug, state.asset.createdAt,
      if MayRenderOwnProject(state.project, member) then Some(state.project) else None,
      FactsOfVersion(state, v), origin, if v.rights == "" then None else Some(v.rights),
      creators, metadata, dependencies, lineage, usedBy, versions, events));
  }
}
