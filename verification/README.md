# POST: a verified model of the publication core

POST is a research network in which projects publish versioned assets. This project models the
code that decides what may be published, what a page may say about things its reader may not
see, and what a command may write, together with a few algorithms of the repository's tooling,
and proves what that code promises. `dafny verify dfyconfig.toml` checks everything.

The modules follow the program:

- `Identity`, `Json`, `Manifest`: pids, labels, pins, origin refs, persistent URLs; JSON text
  (RFC 8259); the manifest document, its canonical bytes and hash.
- `Gate`, `Preview`, `PreviewProofs`, `PreviewBlocks`: the publish checklist and the impact preview.
- `Page`, `PageProofs`, `PageBlocks`, `Browse`, `Ordering`: the asset page, the browse list, and the filtering
  and stable sorting both are built from.
- `Derive`, `DeriveProofs`, `DeriveRuns`: the derive command as interleaved steps of concurrent
  calls against membership, policy and the store, with its idempotency ledger.
- `Redact`: the credential redactor for free text.
- `Acyclic`, `OpenApi`, `Progress`, `Accept`, `Preflight`: the cycle finder of the task graph, the
  JSON pointer walker and resolver, the regenerated section of the progress file, the four-gate
  accept procedure, and the push-blessing preflight.
- `Options`, `Strings`, `Text`: shared helpers.

What a program calls and does not decide is a parameter: the digest, the rights parser, the
secret pattern, the outcome of a gate's jobs, clocks, minted pids, failures of files and of the
database, and the answers of the membership and policy services. Loops of the original are
methods with loops, proved equal to a function on values; the theorems are about those functions.

Some properties do not hold of the code as it stands. Each has a lemma that shows the failing
family, and a lemma that says exactly when the property does hold:

- A password cut in two by whitespace is printed, not masked, when the text before the cut holds
  an at sign (`Redact.AtBeforeTheCutLeaks`). It comes out as `s://u:***@h` if and only if no at
  sign stands before the cut and a line end there is continued (`Redact.CutPasswordMaskedExactly`).
- A pin list may name one version twice, by padding a label with blanks
  (`Identity.PaddedPinEscapesListRule`). No version is pinned twice if and only if the rule finds
  no fault with the list respelled, its labels trimmed (`Identity.PinsDistinctVersionsExactly`).
- A repeat of a derive request under its own idempotency key conflicts with itself when its parent
  reference has a blank in front of the label (`DeriveRuns.PaddedParentConflictsWithItself`, and a
  run in `DeriveRuns.SelfConflictHappens`). It is answered with the stored derivation if and only
  if the reference is canonical (`DeriveProofs.VerbatimRepeatExactly`).
- A different request under a used key can be answered with another request's derivation, because
  the ledger check inside the transaction does not compare the requests
  (`DeriveRuns.RaceAnswersAnotherRequest`, and a run in `DeriveRuns.RaceHappens`). It conflicts if
  and only if the key was recorded when it was looked up (`DeriveProofs.ConflictExactly`).
- An accept that finds its task outside verification tries the transition anyway, so a task that
  reaches verification in between is accepted without any gate
  (`Accept.LateVerificationIsAcceptedUngated`). An acceptance passed all four gates if and only if
  its call had seen the task in verification (`Accept.GatedExactly`).
- Evidence that turns red between the merge gate and the commit does not stop the commit
  (`Accept.RedCollectHappens`). The gate is still green at the commit, for the code it judged, if and
  only if the records written in between are (`Accept.EvidenceAtCommitExactly`), which for one record
  is a condition on its kind (`Accept.RecordKeepsGreenExactly`).
- A second regeneration of the progress file changes nothing if and only if the first found a
  section or no marker at all (`Progress.FixedPointExactly`), and a check after it passes if and
  only if the text held an end marker or no begin marker (`Progress.CheckAfterRunExactly`).
- A remote on any host passes for a GitHub repository when a slash, a question mark or a number sign
  ends its authority and an at sign and a GitHub host follow (`Preflight.ForeignHostPasses`). The host
  that is read is the URL's own if and only if none of the three precedes the last at sign
  (`Preflight.HostPlaceExactly`). A path that git takes for a local one passes too
  (`Preflight.LocalPathPasses`); a spelling with a colon is one if and only if its user part holds a
  slash (`Preflight.ScpIsLocalExactly`).

## Model

| member | source | states |
|---|---|---|
| PreviewProofs.PreviewNonInterference | internal/assets/preview.go:575-741 | Two states that differ only in the project, object id and title behind refs into hidden projects, and in the title and project of a hidden asset, give the same preview, every blocker and every sentence included |
| PreviewProofs.PublishableExactly | internal/assets/preview.go:575-741 | A preview is built and says publishable if and only if the candidate may be stored, the stored asset has its type and project, the last answer for every ref resolves and for every pin names a stored version, and for a public target no ref enters another private project, no pin is private, and, when the rights or the access_level of the manifest promise open data, every blob named under blob_ids is last answered as open |
| PreviewProofs.DeclaredExactly | internal/assets/preview.go:1068-1095 | The declared blob ids are exactly the non-empty texts under blob_ids, alone or in a list |
| PreviewBlocks.PreviewHead | internal/assets/preview.go:753-790 | The head repeats the request; the asset's title and project are shown exactly when the project is the publishing one or public |
| PreviewBlocks.RefsShown | internal/assets/preview.go:878-890 | Every ref has its entry in order, with kind, resolution, and the project exactly when it may be shown |
| PreviewBlocks.PinsShown | internal/assets/preview.go:647-690 | Every pin has its entry in order, with its stored visibility |
| PreviewBlocks.BlobsShown | internal/assets/preview.go:695-737 | Every named blob has an entry with what is stored and what is promised |
| PreviewBlocks.ObjectsShown | internal/assets/preview.go:901-921 | Every object is that of the first ref that carries it, its identity shown exactly when its project may be |
| PreviewBlocks.MetadataShown | internal/assets/preview.go:1011-1018 | The manifest's keys with their values, ascending |
| PreviewBlocks.PrivateDependenciesListed | internal/assets/preview.go:935-964 | A private dependency is listed exactly for a ref that resolves to nothing or into a private project, a pin that names nothing or a private version, and a named blob that is not open, each with its reason and blocking as the target and the promise demand |
| PreviewBlocks.PublishBlockersListed | internal/assets/preview.go:575-741 | A blocker is listed exactly for a gate refusal not about rights, an asset that is missing, of another type or in another project, and every ref or pin that resolves to nothing |
| PreviewBlocks.RightsBlockersListed | internal/assets/preview.go:1121-1140 | No rights blocker for a document that reads, the missing one for a blank, the reader's fault otherwise |
| PreviewProofs.OnlyAssetBlockedExactly | internal/assets/preview.go:575-741 | Nothing but the asset's own blockers stands against the publication exactly when its content may be published |
| PreviewProofs.PublicImpliesPrivate | internal/assets/preview.go:935-964 | What is publishable as public is publishable as private |
| PreviewProofs.BlockersExact | internal/assets/preview.go:1121-1190 | The publish and rights blocker lists that come from the gate are both empty exactly when the gate accepts |
| Preview.BuildPreview | internal/assets/preview.go:575-741 | The loops over refs, pins and blobs compute the specified preview, or none when the state leaves a canonical ref unanswered |
| Preview.RefsLoop | internal/assets/preview.go:620-642 | The ref loop gives the entries, blockers, objects and private dependencies of all refs in order |
| PreviewProofs.ObjectsOnce | internal/assets/preview.go:901-921 | No object version is listed twice |
| PreviewProofs.ObjectsListed | internal/assets/preview.go:620-642 | An object version is listed exactly when a resolved ref carries it |
| Preview.DeclaredIds | internal/assets/preview.go:1068-1095 | The loops over the declared values and over the ids seen so far compute the specified id list |
| PreviewProofs.DistinctMembers | internal/assets/preview.go:1068-1095 | That list holds exactly the declared ids, the empty one left out |
| PreviewProofs.DistinctInOrder | internal/assets/preview.go:1068-1095 | Each once, in the order of first occurrences |
| Gate.RunGate | internal/assets/gate.go:147-236 | One pass gives the facts, the parsed manifest, its canonical bytes and every refusal in rule order |
| Gate.GateExact | internal/assets/gate.go:147-236 | No refusal if and only if the pid is valid and all eight facts hold |
| Gate.AcceptsExactly | internal/assets/gate.go:147-236 | No refusal if and only if the candidate has a valid pid, canonical refs with a release or state among them, a storable label, different valid creators, readable rights, public or private visibility, and a manifest that reads, is of its type, does not pin the version itself and has the declared digest |
| Gate.FactsExactly | internal/assets/gate.go:147-236 | What each of the eight facts says of the candidate |
| Gate.AcceptedCreatorsDistinct | internal/assets/gate.go:416-461 | An accepted candidate credits pairwise different canonical creators |
| Gate.RegateStable | internal/assets/gate.go:147-236 | Gating again with the stored manifest bytes gives the same facts, refusals and bytes |
| Gate.ValidateProvenance | internal/assets/gate.go:239-284 | The source is pinned exactly when there are refs, all canonical, one of them a release or an accepted state |
| Gate.FindDuplicateCreator | internal/assets/gate.go:448-461 | The scan with its table finds the first entry that credits somebody again, and the entry it repeats |
| Gate.ValidateIntegrityHash | internal/assets/gate.go:289-311 | The hash covers the document exactly when it is a digest text and equals the digest of the canonical bytes |
| Page.BuildPage | internal/assets/page.go:614-652 | The builder loops compute the specified page, or nothing when no version may be shown |
| PageBlocks.RenderedExactly | internal/assets/page.go:614-618 | A page is rendered exactly when a version the reader may see bears the wanted label, or, with none wanted, when there is one |
| PageBlocks.PageHead | internal/assets/page.go:614-652 | The head is the asset's and the rendered version's; the project is shown exactly when it is public or to a member |
| PageBlocks.OriginListed | internal/assets/page.go:843-896 | An origin entry is listed exactly for a canonical, resolved ref whose project may be shown, with its title, project and link |
| PageBlocks.CreatorListed | internal/assets/page.go:784-819 | A creator is listed exactly for a credited user or organisation that is known, with its names and role |
| PageBlocks.DependencyListed | internal/assets/page.go:901-930 | A dependency is listed exactly for a pin of the manifest that names nothing stored, by its text, or a version the network can open, by its title, type and address |
| PageBlocks.LineageListed | internal/assets/page.go:934-969 | A child entry is listed exactly for an edge whose parent is the rendered version and whose child the network can open, and a parent entry for the mirror image |
| PageBlocks.UsageListed | internal/assets/page.go:973-996 | A usage is listed exactly for a public usage of the rendered version by a public project, with that project's identity |
| PageBlocks.VersionListed | internal/assets/page.go:1001-1022 | A summary is listed exactly for a version the reader may see, with its fields and address |
| PageBlocks.VersionsSorted | internal/assets/page.go:692-697 | Newest first, then by label |
| PageBlocks.EventListed | internal/assets/page.go:1059-1084 | An event is listed exactly when the reader may see it and the version it names, with its fields and actor |
| PageBlocks.MetadataListed | internal/assets/page.go:827-838 | The manifest's keys with their values, ascending |
| Page.CurrentVersion | internal/assets/page.go:661-679 | The linear scan picks the head of the visible versions in sorted order, or the first visible one with the wanted label |
| Page.NewerIsStrict | internal/assets/page.go:692-697 | Newest first, then by label, is a strict order whose ties are an equivalence |
| Page.NewerIsTotal | internal/assets/page.go:692-697 | Of two versions with different labels exactly one is newer |
| Page.BuildOrigins | internal/assets/page.go:843-882 | Exactly the canonical, resolved refs whose project the reader may be shown, in order |
| Page.BuildLineage | internal/assets/page.go:934-957 | Exactly the edges of the rendered version whose other end the network can open, in order |
| Page.BuildEvents | internal/assets/page.go:1059-1084 | Exactly the events the reader may see about versions the reader may see, in order |
| Page.BuildSummaries | internal/assets/page.go:1001-1022 | The visible versions in sorted order, the rendered one marked |
| PageProofs.PageNonInterference | internal/assets/page.go:614-652 | Two states with the same public part give a reader who is not a member the same page |
| PageProofs.PageOfPublicView | internal/assets/page.go:843-1084 | Taking everything private out of a state changes nothing on the page of a reader who is not a member |
| PageProofs.PublicViewHoldsNothingPrivate | internal/assets/page.go:742-754 | What is left after that is public throughout, lineage ends and pins included |
| PageProofs.PrivateVersionUnseen | internal/assets/page.go:687-689 | A private version put anywhere into the history leaves the public part as it was |
| PageProofs.MembershipOnlyAdds | internal/assets/page.go:614-652 | For a label visible to everyone a member's page renders the same version, its origin, versions and events blocks contain the others as subsequences, and the remaining blocks are equal |
| PageProofs.EventLabelsListed | internal/assets/page.go:1059-1084 | A label an event names is a label the versions block names |
| PageProofs.RendersFirstListed | internal/assets/page.go:661-697 | With no version asked for, the rendered version is the first one listed |
| PageProofs.ExactlyOneCurrent | internal/assets/page.go:1001-1022 | With unique row ids exactly one listed version is marked, and it is the rendered one |
| Ordering.StableSortDetermined | internal/assets/page.go:1009 | Whatever algorithm sorts stably, its result is the one the model uses |
| Ordering.StableSortFilter | internal/assets/page.go:1001-1022 | Sorting what is kept is keeping what is sorted |
| Browse.BuildBrowse | internal/assets/browse.go:141-186 | The loop and the sort compute the specified list |
| Browse.BrowsePermutationInvariant | internal/assets/browse.go:141-186 | With unique pids any reordering of the rows gives the identical list |
| Browse.BrowseIsSorted | internal/assets/browse.go:177-185 | Newest publication first, then by pid |
| Browse.BrowseLists | internal/assets/browse.go:141-160 | Exactly the rows of the asked type with a public version are listed |
| Browse.BrowseListsExactly | internal/assets/browse.go:141-176 | An item is listed exactly for a row of the asked type with a public version, with the row's fields, the two addresses, and the project exactly when it is public |
| Browse.BrowseNonInterference | internal/assets/browse.go:168-175 | The list does not depend on the id, name or slug of a project that is not public |
| Manifest.CanonicalRoundTrip | internal/assets/manifest.go:359-437 | A valid manifest reads back from its canonical bytes, normalised |
| Manifest.CanonicalInjective | internal/assets/manifest.go:396-437 | Equal canonical bytes are equal manifests up to absent and empty |
| Manifest.CanonicalForm | internal/assets/manifest.go:396-401 | The canonical bytes are the four fields in declaration order, without blanks |
| Manifest.ParsedIsValid | internal/assets/manifest.go:359-383 | What is read is a valid manifest |
| Manifest.UnknownMemberRefused | internal/assets/manifest.go:361-368 | A member under any other name, letter case aside, is refused |
| Manifest.TrailingTextRefused | internal/assets/manifest.go:369-377 | Nothing may follow the document but blanks |
| Manifest.StoredHashVerifies | internal/assets/manifest.go:404-426 | The hash of the stored bytes is the hash of the manifest |
| Manifest.ReparseStable | internal/assets/manifest.go:359-426 | Storing the canonical form of what was parsed changes neither the document nor its hash, however the input was spelled |
| Manifest.RefusalsExact | internal/assets/manifest.go:194-215 | Validation refuses nothing exactly when the document is a valid manifest |
| Manifest.ClassifyExactly | internal/assets/manifest.go:315-348 | The three shapes: a text that is not blank, a list of such texts that is not empty, or an object of these that is not empty |
| Manifest.SatisfiesExactly | internal/assets/manifest.go:271-300 | What each requirement asks of a value |
| Manifest.ValidateMetadata | internal/assets/manifest.go:219-266 | The required keys in declaration order, then the extra ones ascending, each refused exactly when its value is missing or of another shape |
| Manifest.ValueSurvives | internal/assets/manifest.go:315-348 | Encoding and decoding a value of the three storable shapes gives it back |
| Json.DocumentRoundTrip | internal/assets/manifest.go:396-401 | A written JSON document reads back as itself, over strings with every escape, arrays and objects |
| Json.EscapedIsSafe | internal/assets/manifest.go:396-401 | A written string holds no control character, no mark of markup and no line separator |
| Identity.ParseDependencyPinExactly | internal/assets/dependency.go:41-47 | Exactly the texts pid@label parse, the label possibly padded |
| Identity.PinRoundTrip | internal/assets/dependency.go:31-47 | Parsing inverts building up to trimming of the label |
| Identity.PinCanonical | internal/assets/dependency.go:31-47 | Building inverts parsing: it yields the one canonical spelling |
| Identity.ValidateDependencyPins | internal/assets/dependency.go:68-93 | The loop with its table reports each malformed and each repeated entry, with the position it repeats |
| Identity.PinErrorsExact | internal/assets/dependency.go:68-93 | A list has no error exactly when every entry parses and no text is listed twice |
| Identity.PinsDistinctVersionsExactly | internal/assets/dependency.go:68-93 | Every entry pins a version and no version is pinned twice if and only if the rule finds no fault with the list respelled canonically; and then it finds none with the list as written |
| Identity.CanonicalPinsNameDistinctVersions | internal/assets/dependency.go:68-93 | For a list of canonical pins the rule as written decides that no version is pinned twice |
| Identity.PaddedPinEscapesListRule | internal/assets/dependency.go:68-93 | Every version can be pinned twice in a sound list by padding its label |
| Identity.AssetVersionUrlInjective | internal/assets/url.go:51-53 | Different versions never share a URL |
| Identity.AssetVersionUrlStable | internal/assets/asset.go:112-126 | Every version URL is a fixed point of remove_dot_segments (section 5.2.4 of RFC 3986) |
| Identity.OriginRefRoundTrip | internal/assets/origin.go:55-78 | Building and parsing origin refs are inverse, both ways |
| DeriveProofs.EveryWriteIsLawful | internal/assets/derive.go:564-607 | In every run each write was made by a call begun, with a request of the stated shape, by a non-agent who owned the target project then, whose key was in no ledger row at its lookup, whose policy could be read and asked for no IP review if the child is public, and whose transaction found the parent published and readable, its rights allowing derivatives or leaving them unspecified with a confirmation of 1 to 512 characters and the verdict saying so, the pid new and the content publishable against the versions stored then |
| DeriveProofs.DerivableExactly | internal/assets/derive.go:220-276 | A declaration permits deriving, with this verdict, exactly when it allows derivatives, or leaves them unspecified and the confirmation has 1 to 512 characters |
| DeriveProofs.DeclarationDecides | internal/assets/derive.go:220-276 | A declaration that forbids, is unreadable or unknown, or lacks its confirmation is never written from, and is answered with its own code |
| DeriveProofs.PreparedExactly | internal/assets/derive.go:693-785 | Validation lets exactly the requests of the stated shape through, as exactly the job with their trimmed fields and the minted pid |
| DeriveProofs.WriteAdds | internal/persistence/asset_derive_store.go:270-379 | A derivation adds its version with visibility, rights and project, its asset, its ledger row when there is a key, its record, and nothing else |
| DeriveProofs.PublicWritesPinNothingPrivate | internal/persistence/asset_derive_store.go:228-248 | Over every run, what a public derivation pins is a stored version that is not private, also in every later state |
| DeriveProofs.VersionsKept | internal/persistence/asset_derive_store.go:68-74 | Over every run, published versions are never changed or removed |
| DeriveProofs.OwnersOnly | internal/authz/matrix.go:103-111 | The matrix and the class of an actor let exactly a non-agent owner derive |
| DeriveProofs.LedgerIsSound | internal/persistence/asset_derive_store.go:174-188 | In every run the ledger holds exactly the keyed writes in order, and no key of a project twice |
| DeriveProofs.RecordedForever | internal/persistence/asset_derive_store.go:352-379 | A recorded key keeps naming the derivation it named first, whatever follows |
| DeriveProofs.RepeatIsAnswered | internal/assets/derive.go:573-586 | A later call under a recorded key gets the stored derivation if it asks for the same parent, relation and label, whatever pid was minted for it, and a conflict otherwise; nothing else changes |
| DeriveProofs.VerbatimRepeatExactly | internal/assets/derive.go:870-887 | A verbatim repeat is answered with its derivation if and only if its parent reference is canonical |
| DeriveRuns.PaddedParentConflictsWithItself | internal/assets/derive.go:870-887 | When a request with a parent reference that is not canonical is carried out and sent again, the run ends with the repeat answered by a conflict |
| DeriveRuns.SelfConflictHappens | internal/assets/derive.go:870-887 | Such a run from a concrete initial state, the gate and the preview included |
| DeriveProofs.PaddedParentNotCanonical | internal/assets/derive.go:693-712 | A parent reference with a blank before its label is accepted and names the version, and is not canonical |
| DeriveProofs.ConflictExactly | internal/assets/derive.go:573-586 | Over every run a call is answered with a conflict if and only if its lookup found the key recorded for another request |
| DeriveRuns.RaceAnswersAnotherRequest | internal/persistence/asset_derive_store.go:174-188 | When two requests of an owner with one key are both past lookup and policy before either commits, the run ends with both answered by the first one's derivation, whatever the second asked for |
| DeriveRuns.RaceHappens | internal/persistence/asset_derive_store.go:174-188 | Such a run from a concrete initial state: a call that asks for version 2 is answered with another call's version 1 |
| DeriveProofs.RefusalChangesNothing | internal/persistence/asset_derive_store.go:60-66 | A refused call changes nothing but its own answer |
| DeriveProofs.StepWrites | internal/persistence/asset_derive_store.go:124-422 | A step writes the whole derivation or nothing |
| DeriveProofs.ReviewExactly | internal/persistence/asset_derive_store.go:228-268 | The review inside the transaction passes exactly when the content may be published and the document check agrees; the gate never refuses what the preview let through |
| DeriveProofs.NewAssetExactly | internal/persistence/asset_publish_store.go:474-492 | For an asset that does not exist yet no reason to refuse remains exactly when the content may be published |
| DeriveProofs.ReadGateExactly | internal/assets/derive.go:295-300 | The parent is readable by everyone when project and version are public, by a member of its project otherwise, and by nobody else |
| Derive.CanonicalRefs | internal/assets/derive.go:758-768 | Respelling the canonical refs of a request changes none of them |
| Redact.RedactUserinfoPerToken | internal/config/redact.go:185-223 | The index loop computes the specified redaction of every text |
| Redact.PasswordNeverSurvives | internal/config/redact.go:185-223 | In any text that holds s://u:p@h as a whitespace-delimited token the output is the same for every whitespace-free p, also when the token before absorbs it |
| Redact.CutPasswordNeverSurvives | internal/config/redact.go:253-310 | A span whose cut the redactor crosses comes out with neither half of the password |
| Redact.CutPasswordMaskedExactly | internal/config/redact.go:185-310 | In any context a password cut by whitespace comes out as s://u:***@h, what surrounds it redacted on its own, if and only if the text before the cut holds no at sign and a line end in the cut is continued |
| Redact.AtBeforeTheCutLeaks | internal/config/redact.go:253-310 | With an at sign before the cut, what follows it up to the cut and the second half are printed |
| Redact.BlankCutPassword | internal/config/redact.go:253-310 | Cut by blanks or tabs it comes out so if and only if the text before the cut holds no at sign |
| Redact.ContinuationCutPassword | internal/config/redact.go:253-270 | Cut by a shell line continuation it does so under the same condition |
| Redact.RedactUrlForgetsSecret | internal/config/redact.go:340-359 | Masking one URL forgets everything between the first colon and the last at sign of the userinfo |
| Redact.TokenUrlMasked | internal/config/redact.go:340-359 | A userinfo without a colon is masked as a whole |
| Redact.TokenNeverSurvives | internal/config/redact.go:185-223 | In any text that holds s://t@h as a token the output is the same for every colon-free t |
| Redact.CutTokenMaskedExactly | internal/config/redact.go:253-310 | Cut by whitespace such a token is masked as a whole, in any context, if and only if its first half looks like a credential or the cut is a continued line end |
| Redact.NoAtNoChange | internal/config/redact.go:185-223 | A text without an at sign is left as it is |
| Redact.RedactUrlIdempotent | internal/config/redact.go:340-359 | Masking one URL twice is masking it once |
| Acyclic.CheckAcyclic | scripts/validate_specs.py:156-182 | For every finite task list: a returned list is a real dependency cycle that repeats no task but its first, and nothing is returned exactly when there is no cycle |
| Acyclic.Search.Visit | scripts/validate_specs.py:160-176 | A visit finishes its task and everything it reaches, or returns a cycle; it terminates on the unvisited tasks |
| Acyclic.FinishedGraphIsAcyclic | scripts/validate_specs.py:156-182 | A graph whose every task has finished after its dependencies has no cycle |
| OpenApi.WalkThenResolve | scripts/validate_openapi.py:63-89 | Every path the walk yields, escaped as in section 3 of RFC 6901, resolves to the value the walk paired with it, keys with ~, / and ~1 and positions under arrays included |
| OpenApi.FollowedIsWalked | scripts/validate_openapi.py:63-89 | Conversely, what a sequence of tokens finds in a mapping the walk names, by those tokens with every array index as its plain numeral |
| OpenApi.ResolvedIsWalked | scripts/validate_openapi.py:63-89 | So what a reference resolves to in a mapping is an entry of the walk at that path |
| OpenApi.ResolveRef | scripts/validate_openapi.py:75-89 | The loop over the tokens computes the specified resolution |
| OpenApi.UnescapeEscape | scripts/validate_openapi.py:81 | Unescaping in the code's order inverts escaping for every key |
| Progress.FixedPointExactly | scripts/update_progress.py:157-183 | A second regeneration changes nothing if and only if the first found a section or no marker at all |
| Progress.SurroundingsKept | scripts/update_progress.py:117-176 | A text with a section is what precedes the first begin marker, the section up to the first end marker, line feeds and a rest; the run gives what precedes, the rendered section and that rest |
| Progress.AppendedBehind | scripts/update_progress.py:174-176 | Without a section the run gives the text without its trailing line feeds, a blank line and the rendered section |
| Progress.FoundExactly | scripts/update_progress.py:117-127 | A section is there exactly when the first end marker stands behind the first begin marker |
| Progress.CheckAfterRunExactly | scripts/update_progress.py:157-183 | For stamps of one line, a check after a regeneration passes if and only if the text held an end marker or no begin marker |
| Progress.CheckAfterRunForAnyStamps | scripts/update_progress.py:130-172 | For any stamps, over a text with a section or without markers, it passes exactly when both leave the same text behind their first line |
| Progress.RenderIsProper | scripts/update_progress.py:91-114 | A rendered section without an embedded end marker holds exactly one, at its end |
| Progress.RemoveStamp | scripts/update_progress.py:130-142 | The loop drops the first line that carries the stamp and nothing else |
| Accept.EveryAcceptance | cmd/rddev/task.go:233-410 | In every interleaving each acceptance came from verification, by a call that saw it there and passed G1, G2, G3 and G4 before, or by one that had seen another state |
| Accept.GatedExactly | cmd/rddev/task.go:247-257 | An acceptance passed all four gates if and only if its call had seen the task in verification |
| Accept.LateVerificationIsAcceptedUngated | cmd/rddev/task.go:254-257 | A task that reaches verification after an accept looked at it and before that accept's transition is accepted with no evidence |
| Accept.EvidenceAtCommitExactly | cmd/rddev/task.go:363-395 | For every gated acceptance the merge gate was green at an earlier step of the call, and for the code judged there it is green at the commit if and only if the records written in between are |
| Accept.GreenAfterExactly | internal/devorchestrator/gate_run.go:463-605 | A green merge gate is green after more records if and only if the collect, G2, G3 and review records that took over are themselves green and in the required order of time |
| Accept.MergeGreenExactly | internal/devorchestrator/gate_run.go:463-605 | The merge gate is green exactly when the newest collect is ok, the newest G2 run is not older and reports every required job as passed, the newest G3 run covers the task's G3 jobs if it has any, and, where the task's own rule or else the general one requires it, the newest review approves, is not older than the collect and names the code |
| Accept.ReuseExactly | internal/devorchestrator/gate_run.go:609-677 | G1 is green when the newest collect is ok; a G2 run may be reused when it is the newest, passed, and is not older than the newest collect |
| Accept.G3ReuseExactly | cmd/rddev/task.go:306-345 | A G3 run may be reused when there is a collect and the newest run passed, is not older, and reports every job of the task as passed |
| Accept.GateRunsExactly | internal/devorchestrator/gate_run.go:53-180 | A gate passes now when it can run, has jobs, and each of them passes |
| Accept.RecordKeepsGreenExactly | internal/devorchestrator/gate_run.go:463-605 | One record not older than those of its kind keeps a green gate green if and only if a collect is ok and not newer than the G2 run and a required review, a G2 run passed every required job, a G3 run passed and covers its jobs, or a required review approves and names the tree |
| Accept.EvidenceStillHolds | cmd/rddev/task.go:363-395 | In particular the gate's answer still holds when no record that concerns the task was written since |
| Accept.RedCollectHappens | cmd/rddev/task.go:363-395 | A concrete run: a failed collect written after the gates and before the commit does not stop the acceptance |
| Accept.RefusalChangesNoTask | cmd/rddev/task.go:233-410 | Every step of an accept but a successful commit leaves every task's state and history alone |
| Accept.Desk.Accept | cmd/rddev/task.go:233-410 | Undisturbed, a task is accepted exactly when it is in verification and all four gates are green; otherwise no task changes |
| Accept.Desk.EnsureG3 | cmd/rddev/task.go:306-362 | G3 is green when not required, when a passed run covers every job and is not older than the latest collect, or when it passes now |
| Accept.Desk.EnsureG2 | internal/devorchestrator/gate_run.go:660-677 | G2 is green when a passed run is not older than the latest collect, or when it passes now |
| Accept.LatestExactly | internal/devorchestrator/gate_run.go:400-445 | The record used as evidence is the newest of its kind, of equally old ones the one written last |
| Accept.CheckCovered | cmd/rddev/task.go:323-336 | The nested loops find out whether every required job is reported as passed |
| Preflight.RunPreflight | scripts/source_repo_preflight.py:184-439 | A push is blessed if and only if the record is canonical, the expectation valid and equal to the observation, origin normalises to the recorded name, all determinable branches agree, and the marker equals the digest |
| Preflight.DeservesExactly | scripts/source_repo_preflight.py:184-439 | The same on the fields recorded and observed: owner, name, full name, provider and branch, a confirmed expectation equal to the observation, origin, branches and marker |
| Preflight.BranchOf | scripts/source_repo_preflight.py:332-340 | The local branch is what follows the last slash of the recorded ref, or all of it |
| Preflight.SchemeFormReads | scripts/speclib.py:166-219 | Every https, http, ssh and git spelling of one owner and name, with any user part, host case, .git suffix and trailing slash, normalises to that owner and name |
| Preflight.ScpFormReads | scripts/speclib.py:194-200 | So does every scp-like spelling |
| Preflight.NormalizesExactly | scripts/speclib.py:166-219 | A text normalises to a repository if and only if it is a known scheme or scp-like spelling with a GitHub host and a path of owner and name, the name perhaps with .git, with slashes between and around |
| Preflight.ReadPathExactly | scripts/speclib.py:201-217 | Exactly those hosts and paths are read |
| Preflight.HostPlaceExactly | scripts/speclib.py:185-193 | The host is read where the URL's host begins (section 3.2 of RFC 3986) if and only if no slash, question mark or number sign precedes the last at sign |
| Preflight.PlainUserIsGithub | scripts/speclib.py:185-207 | A URL that normalises and has none of the three before its last at sign is on a GitHub host |
| Preflight.ForeignHostPasses | scripts/speclib.py:185-193 | A URL on any other host normalises to a GitHub repository when one of the three, an at sign and a GitHub host follow its authority |
| Preflight.ScpIsLocalExactly | scripts/speclib.py:194-200 | A scp-like spelling has a slash before its first colon, which makes it a local path to git, if and only if its user part holds one |
| Preflight.LocalPathPasses | scripts/speclib.py:194-200 | Such a path normalises to a GitHub repository |
| Preflight.Assemble | scripts/speclib.py:317-331 | No reason exactly when no gating check failed or is unknown, and the reasons name exactly those checks |

## Left out

- Wording: a preview sentence is modelled as what it says with everything it mentions; the text itself is a rendering of that. Refusal details of the gate and of the manifest are codes and field paths.
- Process wiring, HTTP, Redis, PostgreSQL queries, migrations, the web front end and the rest of the rddev command line.
- The regular expressions of the text redactor and the secret scanner: the pattern is an uninterpreted predicate, and only the hand-written tokenizer is modelled.
- speclib.redact_url: masks like the URL redactor modelled in `Redact`, and would repeat it.
- A password cut by more than one run of whitespace: the redactor names this as a gap it leaves; the exact condition is proved for one run.
- Idempotence of the text redactor: not claimed, since a second pass over a text can mask more.
- Json.DocumentRoundTrip: numbers are natural numerals; the decoder's nesting limit, re-rendering of floating-point numbers and repair of invalid UTF-8 are not modelled.
- Manifest: a null item inside a repeated dependency_pins member is read as the empty pin whatever stood there before.
- Letter case beyond ASCII: canonical creator ids, host names and repository names are folded for ASCII letters only, and repository names are ASCII.
- Digits beyond ASCII in a JSON pointer token: the resolver reads them as an index too, or fails on them.
- The refs and blobs a derivation's transaction resolves are inputs; its asset and its pins are read from the modelled store.
- Derive and its store are values and step functions rather than an object, so that calls can interleave; usage rows, credits, the outbox and research events written in the same transaction are not modelled.
- Different spellings of one project uuid: membership is asked for by the text given, the ledger by the uuid the text denotes.
- Page: the identity of users and organisations is not withheld by the code and not erased from the public part; time zones of instants are not modelled.
- PageProofs.PageNonInterference: assumes that a resolved ref names a project, as the column it is read from guarantees.
- render_section: the table's content is a parameter; only its place between the stamp and the end marker matters here.
- Accept: how a gate's steps execute and how the code identity is computed are inputs; a transition's dependency check for ready and running tasks is left out, since it only refuses more.
- Preflight: how remotes, branches, visibility and the digest are captured from git, gh and files.
