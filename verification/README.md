# Lamplight, modelled and proved

Lamplight serves many institutes from one deployment: a request's Host header picks the
institute, and everything after that happens inside it. This project models the parts of the
platform whose correctness spans several calls, several requests or a whole history, and
proves what they promise. `dafny verify dfyconfig.toml` checks all of it.

- **Names** (`Host`, `HostShapes`, `Domains`, `NameOwnership`, `DomainAnswers`, `DomainService`,
  `PlatformSweep`). Cleaning and classifying a host, claiming a custom domain, and the table of domains under provisioning,
  attaching, refreshing, removing, choosing a primary, suspending and sweeping. In every
  reachable state who answers for a name is settled both ways: its own subdomain for an active
  institute, or a live row of an active institute's outside the root; nobody else ever does, and
  the canonical redirect ends in one hop.
- **The resolver and its cache** (`TtlCache`, `LruTheory`, `Resolve`). The bounded cache as a
  class, shown to be a least-recently-used cache by refinement of one that stamps every touch,
  and to have the stack property; then lookups that overlap each other, database writes,
  evictions, invalidations, crashes and restarts, with a bound on how stale an answer can be.
- **Media** (`ObjectKeys`, `ObjectNames`, `Uploads`, `Replacement`, `UploadScripts`, `UploadDesk`,
  `DeskProtocol`). Object keys, and the protocol between browser, bucket and database that shares no transaction: once as a
  machine of interleaved steps that may die anywhere, once as a class whose methods are the
  actions undisturbed. What replacing a recording leaves is settled for every interleaving, and
  each failure is reached from an empty platform.
- **Invitations and activation** (`Invitations`, `Activation`, `ActivationSafety`, `ActivationRules`,
  `ActivationScript`, `IssueRate`). One use per invitation, the right person at the right institute in the
  right role, where admins come from, how long a link opens, no dead ends, and a bound on how often an
  address can be mailed.
- **Entitlements** (`Access`, `AccessRules`, `EnrolledCourses`, `Grants`). Who may read and who may change, the
  isolation of institutes from one another, the profile list against the predicate, and an audit
  log that is the whole history.
- **Inline markdown** (`Markdown`, `InlineGrammar`). The scanner and a printer that undo each other, and the
  pattern as four languages of tokens.

`Text` holds the string operations the others share.

How the forms correspond: code that mutates is a class or a method with loops
(`TtlCache`, `HostResolver`, `DomainService`, `SweepTenants`, `MediaDesk`, `InvitationStore`,
`KeepBest`, `EnrollmentDesk`, `RenderInline`), proved against functions on values; the lemmas
are about those functions. Each `getTenantDb(...).run` is one atomic step; every `await` outside
one is a point where other steps, and crashes, may come in between. Clocks, Cloudflare, the
bucket, the session, the sign-up call and fresh ids are parameters: any answer is possible.
Unique indexes and foreign keys are guards on writes.

## Hypotheses

- `RootOk`: claims are checked against `PLATFORM_APEX_DOMAIN` and names are resolved under
  `TENANT_SUBDOMAIN_ROOT`; the two are taken to be the same name, already in normal form.
- A slug `www` is read as the apex, so it is the one slug whose subdomain resolves to nobody.
  The statements say so instead of excluding it.
- Tenant ids and row ids are uuids: given out once, with no slash and no pair of dots.
- Hashing is injective, so a token stands for its hash. One clock serves the application and the
  database.

## Where the code and its comments differ

The model follows the code.

- `removeAttachment` says "object first, then the row" (src/lib/media/attachments.ts:232); it
  deletes the row first. That is the order under which no surviving row loses its object.
- A claim is meant to be released after fourteen days (src/lib/domains/service.ts:26-27), but every refresh of
  a row that is not active writes a new deadline (src/lib/domains/service.ts:157-162), and the sweep
  refreshes first. `DomainLifecycle.SweepReleasesExactly` says what is released;
  `DomainLifecycle.ClaimsNeverLapseWhileAnswered` that nothing is while Cloudflare answers.
- `attachMembership` calls itself one-directional (src/lib/auth/invitations.ts:296-299); only an
  admin is protected. `Invitations.StandingIsKeptIff` gives the exact condition.
- `completeUploadAction` promises to leave the lesson its new recording and no other
  (src/app/(tenant)/teach/actions.ts:414-424). It lists what to supersede in one transaction and
  commits in another, and never looks at the kind of the row it completes. Over every
  interleaving `Replacement.CommitLeavesWhatCameIn` says what is left: exactly one audio row if and
  only if its own is still there as audio and no audio came in between the two. Three inputs show
  the ways it fails: `UploadScripts.IntrusionIsReached` (a reservation in between leaves two),
  `UploadScripts.OverlapIsReached` (two completions leave none) and, for a row that is not audio,
  `UploadDesk.ReplaceMeansReplace`. `Replacement.CompletionReplaces` proves the promise for the whole
  action among bystanders that do none of this.
- The key builder is described as ruling out wrong keys (src/lib/storage/keys.ts:17-19); a file name
  that keeps two dots together makes a key its own tenant is refused.
  `ObjectKeys.BuiltKeyBelongsIff` gives the exact condition.
- `normalizeHost` is meant to leave one spelling of a host (src/lib/tenancy/host.ts:20-23); a name written with
  two trailing dots keeps one. `Host.FixedPointIff` and `Host.EndsInDotIff` give the exact
  condition.

## Model

| member | source | states |
|---|---|---|
| Text.NormalFormOnce | src/lib/auth/invitations.ts:109 | trimming and lowering an address or a host a second time changes nothing |
| HostShapes.TrimExactly | src/lib/tenancy/host.ts:28 | trimming takes off exactly the white space at both ends |
| Host.FixedPointIff | src/lib/tenancy/host.ts:25-58 | a normalised host is a fixed point of normalising exactly when it does not end in a dot |
| Host.EndsInDotIff | src/lib/tenancy/host.ts:44-55 | it ends in a dot exactly when the raw host part ended in two |
| Host.SecondApplicationSettles | src/lib/tenancy/host.ts:25-58 | two applications always reach null or a fixed point |
| Host.NormalizeIsNotIdempotent | src/lib/tenancy/host.ts:47-58 | the two inputs that show idempotence fails |
| Host.AcceptedClaimIsSettled | src/lib/tenancy/host.ts:126-159 | an accepted claim is in normal form, is accepted again unchanged, and is foreign to the classifier for the same apex |
| Host.UnclaimedIsForeign | src/lib/tenancy/host.ts:68-90 | whatever is not at or under the apex is foreign |
| Host.SlugRoundTrip | src/lib/tenancy/host.ts:72-98 | a slug's subdomain reads back as that slug (`www` as the apex), and no other host does |
| Host.OnlySlugHostReads | src/lib/tenancy/host.ts:78-87 | a host classified as a subdomain is its label before the root |
| Host.SlugHostIsNormal | src/app/(platform)/superadmin/actions.ts:82 | the host a tenant is provisioned under is already in normal form |
| HostShapes.NormalizesIff | src/lib/tenancy/host.ts:25-58 | a header is answered with a name if and only if, trimmed and lowered, it is the name with or without a trailing dot, with or without a port |
| HostShapes.PortIsDropped | src/lib/tenancy/host.ts:44-45 | a name and a port, whatever the port says short of ending in white space, normalise to the name |
| HostShapes.BracketsKeepTheirColons | src/lib/tenancy/host.ts:38-42 | a bracketed address keeps its colons and loses whatever follows the bracket |
| HostShapes.ClassifiesExactly | src/lib/tenancy/host.ts:68-90 | the apex and its `www` are the apex, one label before it is a subdomain, all the rest is foreign under its own name |
| HostShapes.SplitUndoesJoin | src/lib/tenancy/host.ts:141 | labels without dots, joined at dots and split, come back |
| HostShapes.JoinUndoesSplit | src/lib/tenancy/host.ts:141 | a name split at its dots and joined comes back, and no label has a dot |
| HostShapes.SlugsAreLabels | src/lib/tenancy/host.ts:96-98 | slugs are the DNS labels: one to sixty-three letters, digits and inner hyphens |
| HostShapes.ClaimsExactly | src/lib/tenancy/host.ts:126-159 | a claim is accepted if and only if it has no colon and its normal form joins two or more labels, the last not a number, within 253 characters, outside the apex; refused as the platform's if and only if it is one at or under the apex |
| Caching.TtlCache.constructor | src/lib/cache/ttl-cache.ts:16-19 | an empty cache with its cap and its lifetime |
| Caching.TtlCache.Get | src/lib/cache/ttl-cache.ts:21-36 | the new contents and the answer: a dead entry goes, a live one moves to the end with its deadline unchanged |
| Caching.TtlCache.Set | src/lib/cache/ttl-cache.ts:38-51 | the new contents after the eviction loop, never over the cap |
| Caching.TtlCache.Delete | src/lib/cache/ttl-cache.ts:53-55 | the contents without the key, in the same order |
| Caching.TtlCache.Clear | src/lib/cache/ttl-cache.ts:57-59 | nothing is left |
| Caching.EvictKeepsShape | src/lib/cache/ttl-cache.ts:46-50 | eviction keeps exactly the newest entries up to the cap, whole |
| Caching.SetKeepsShape | src/lib/cache/ttl-cache.ts:38-51 | a write leaves at most the cap, its own entry as written if it fits, and other entries untouched |
| Caching.RunKeepsShape | src/lib/cache/ttl-cache.ts:13-64 | after any history the keys are distinct and no more than the cap |
| Caching.DeadlineIsFromLastWrite | src/lib/cache/ttl-cache.ts:21-44 | after any history an entry has the value and deadline of its key's last write, however often it was read |
| LruTheory.MapOrderIsTouchOrder | src/lib/cache/ttl-cache.ts:9-12 | over every history the Map answers as a cache that stamps each touch and evicts the smallest stamp, and its order is the touch order |
| LruTheory.EvictsTheOldest | src/lib/cache/ttl-cache.ts:46-50 | dropping from the front is evicting the oldest stamps, as often as needed |
| LruTheory.OrderIgnoresContents | src/lib/tenancy/resolve.ts:74-86 | the key order after a resolve depends on the key order alone, not on hits, expiries or answers |
| LruTheory.StackProperty | src/lib/tenancy/resolve.ts:71-86 | for every sequence of non-overlapping calls the key order under a smaller cap is a suffix of that under a larger one |
| LruTheory.LargerCacheMayMissWhereSmallerHits | src/lib/cache/ttl-cache.ts:30-35 | the suffix says nothing about deadlines: a history where the larger cache misses and the smaller hits |
| Domains.ProvisionKeeps | src/app/(platform)/superadmin/actions.ts:72-128 | provisioning keeps slugs and names unique and gives the row its own slug's name |
| Domains.AttachKeeps | src/lib/domains/service.ts:47-107 | an attached claim is never under the root and breaks no uniqueness |
| Domains.RefreshKeeps | src/lib/domains/service.ts:149-172 | a refresh makes at most one row of a name active |
| Domains.RecordErrorKeeps | src/lib/domains/service.ts:333-350 | recording a failure keeps every table invariant |
| Domains.RemoveKeeps | src/lib/domains/service.ts:228-245 | removing a row keeps every table invariant |
| Domains.SetPrimaryKeeps | src/lib/domains/service.ts:257-295 | each tenant keeps at most one primary row |
| Domains.StepKeeps | src/lib/domains/service.ts:32-350 | every step of any tenant keeps the invariants |
| Domains.RunKeeps | src/lib/domains/service.ts:32-350 | every reachable state: unique slugs, one active row a name, names under the root only for their slug, one primary each |
| Domains.AnswersAreActiveTenants | drizzle/0005_tenant_name_in_resolution.sql:30-36 | whoever a name resolves to is a tenant that is there, active, and has the slug given |
| NameOwnership.OwnedName | src/lib/tenancy/resolve.ts:89-112 | with its own row or without, a subdomain resolves to what the slug lookup says |
| NameOwnership.SubdomainOwnership | src/lib/tenancy/resolve.ts:89-112 | in every reachable state `slug.root` resolves to a tenant if and only if that tenant is active, has that slug, and the slug is not `www` |
| NameOwnership.AbsoluteUrlReadsBack | src/lib/tenancy/host.ts:174-183 | for any host without a slash, ports and literals included, a browser reads back the same host and the same path and query |
| NameOwnership.PrimaryHostResolves | src/db/repositories/domains.ts:100-116 | an active tenant's primary name is in normal form and resolves to that tenant unless it is `www` under the root |
| NameOwnership.RedirectEndsInOneHop | src/lib/domains/redirect.ts:31-49 | in every reachable state a redirect lands on the same tenant's primary name, path and query unchanged, and there nothing redirects |
| NameOwnership.AtMostOnePrimary | src/lib/domains/service.ts:257-296 | two primary rows of a tenant are one row, and choosing one makes it the one found |
| DomainAnswers.ResolvesExactly | src/lib/tenancy/resolve.ts:89-112 | in every reachable state, for every lower-case name: a tenant answers if and only if it is active and the name is its own subdomain, `www` apart, or lies outside the root and it has a live row for it |
| DomainAnswers.ForeignAnswers | drizzle/0005_tenant_name_in_resolution.sql:30-36 | a foreign name answers if and only if some active row with that name belongs to an active tenant, and with that tenant |
| DomainAnswers.SlugHostAnswers | src/db/client.ts:114-127 | an active tenant answers at its own subdomain unless its slug is `www` |
| DomainAnswers.SuspendedAnswersNobody | src/db/client.ts:94-95 | from its suspension on, whatever anybody does, no name resolves to a tenant until its status is set again |
| DomainAnswers.StatusDecides | src/db/client.ts:122 | after its status is set a tenant answers at its subdomain if and only if it was set to active |
| DomainAnswers.ProvisionedAnswersAtOnce | src/app/(platform)/superadmin/actions.ts:72-128 | provisioning succeeds if and only if the slug is well formed and nobody's, and then the tenant answers at once at its subdomain, its primary name |
| DomainAnswers.RedirectsExactly | src/lib/domains/redirect.ts:31-49 | a visitor is redirected if and only if the path is known and the tenant has a live primary row under another name, and to which address |
| DomainLifecycle.DomainService.constructor | src/lib/domains/service.ts:32-37 | any tables that keep the invariant, under an apex |
| DomainLifecycle.DomainService.Attach | src/lib/domains/service.ts:32-112 | exactly when a claim is saved, refused with a message, or thrown, and the new table |
| DomainLifecycle.DomainService.Refresh | src/lib/domains/service.ts:121-179 | the row as Cloudflare's answer makes it, untouched when it cannot be reached, exactly when the write throws, and that the cache forgets the name if and only if the row became active |
| DomainLifecycle.DomainService.RefreshAll | src/lib/domains/service.ts:182-199 | every row of the tenant that was not active is refreshed, or a listed part of them where a write threw |
| DomainLifecycle.DomainService.Remove | src/lib/domains/service.ts:201-248 | unless Cloudflare cannot be reached an owned row goes, whatever its status, and every other stays; a live name then resolves by no row, a primary leaves no primary, and the cache forgets the name |
| DomainLifecycle.RemovedRowIsSilent | src/lib/domains/service.ts:226-247 | one live row gone, its name is found by nobody; the primary row gone, the tenant has no primary |
| DomainLifecycle.RefreshWritesTheAnswer | src/lib/domains/service.ts:153-163 | a refresh writes status and deadline of one owned claim as Cloudflare's answer has them, or nothing |
| DomainLifecycle.ErrorMarksTheClaim | src/lib/domains/service.ts:333-350 | a recorded failure marks one owned claim as failed and touches nothing else |
| DomainLifecycle.RefreshThrowsIff | src/lib/domains/service.ts:149-172 | the write of a refresh throws if and only if the claim was found active and its name is live in another row |
| DomainLifecycle.DomainService.SetPrimary | src/lib/domains/service.ts:257-296 | true exactly for an active row of the tenant; then that row is primary, no other row of the tenant is, nothing else has changed, and the whole cache is forgotten |
| DomainLifecycle.DomainService.ListDomains | src/db/repositories/domains.ts:67-75 | the rows of one tenant, each once |
| DomainLifecycle.DomainService.ReleaseLapsedClaims | src/lib/domains/service.ts:311-331 | exactly the tenant's lapsed rows go, and they are what is counted |
| DomainLifecycle.DomainService.Sweep | src/app/api/platform/sweep/route.ts:79-83 | refresh then release, as one function of the rows; it touches no other tenant's |
| DomainLifecycle.SweepReleasesExactly | src/lib/domains/service.ts:311-331 | a sweep removes a row if and only if it had lapsed and its refresh wrote no new deadline |
| DomainLifecycle.AnsweredSweepReleasesNothing | src/lib/domains/service.ts:157-162 | a sweep Cloudflare answers throughout releases nothing |
| DomainLifecycle.ClaimsNeverLapseWhileAnswered | src/lib/domains/service.ts:154-163 | nor does any number of such sweeps, however late |
| DomainLifecycle.UnansweredClaimIsReleased | src/lib/domains/service.ts:311-331 | a new claim survives a sweep if and only if Cloudflare answered or fourteen days have not passed |
| PlatformSweep.SweepIsLocal | src/app/api/platform/sweep/route.ts:68-84 | what a sweep leaves an institute depends on that institute's rows alone |
| PlatformSweep.SweepTenants | src/app/api/platform/sweep/route.ts:62-89 | whoever does not fail ends exactly as after a sweep of its own, others are untouched, and the counts are right |
| Resolving.HostResolver.constructor | src/lib/tenancy/resolve.ts:40 | an empty cache of a thousand entries and sixty seconds |
| Resolving.HostResolver.Begin | src/lib/tenancy/resolve.ts:71-75 | no host touches nothing; otherwise exactly one cache read of the normal form |
| Resolving.HostResolver.Complete | src/lib/tenancy/resolve.ts:79-86 | the answer is stored under the host, a miss for five seconds and a hit for sixty |
| Resolving.HostResolver.Invalidate | src/lib/tenancy/resolve.ts:43-50 | forgets the normal form, or everything when no host is given, or nothing when it has none |
| Resolving.SlugReadIsTheAnswer | src/lib/tenancy/resolve.ts:104-109 | the two reads of a lookup, taken at different instants, say what the database said at the second |
| Resolving.BoundedStaleness | src/lib/tenancy/resolve.ts:60-87 | in any run an answer served was the database's at an instant less than its lifetime plus the lookup latency before |
| Resolving.ServedTenantsWereActive | src/lib/tenancy/resolve.ts:60-87 | in any run a tenant served was there, active and under that slug less than a minute and the lookup latency before |
| Resolving.InactiveTenantsFadeOut | src/lib/tenancy/resolve.ts:21-40 | a tenant inactive for a minute and the lookup latency is served to nobody |
| Resolving.StoredAnswersLast | src/lib/tenancy/resolve.ts:79-86 | left alone a stored tenant is read back for exactly sixty seconds and a miss for exactly five |
| Resolving.OneAnswerEach | src/lib/tenancy/resolve.ts:71-77 | a request with a host is answered from the cache or begins one lookup, never both, and disturbs no other |
| Resolving.LookupsEnd | src/lib/tenancy/resolve.ts:77-86 | a lookup that ends, by an answer or by an error, is gone; an error answers nothing and stores nothing |
| Resolving.InvalidationIsFinal | src/lib/tenancy/resolve.ts:43-50 | after an invalidation with no lookup for the host in flight, every later answer comes from a read made after it |
| Resolving.InvalidationLosesToALookupInFlight | src/lib/tenancy/resolve.ts:77-81 | with one in flight it does not: a stale miss is stored and served |
| ObjectKeys.SanitizedIsTidy | src/lib/storage/keys.ts:84-96 | a sanitised name is non-empty, at most 120 safe characters, without a pair of hyphens or a leading dot or hyphen |
| ObjectKeys.SanitizeTidy | src/lib/storage/keys.ts:84-96 | sanitising such a name only takes away a last hyphen the length cut left |
| ObjectKeys.SanitizeSettles | src/lib/storage/keys.ts:84-96 | stable from the second application on, and from the first if and only if the cut at 120 does not fall right after a hyphen |
| ObjectKeys.SanitizeIsNotIdempotent | src/lib/storage/keys.ts:93-95 | a name of 121 characters that changes a second time |
| ObjectKeys.BuiltKeyBelongsIff | src/lib/storage/keys.ts:52-75 | a built key is accepted for its own tenant if and only if the sanitised name has no pair of dots |
| ObjectKeys.BuiltKeyIsNoOthers | src/lib/storage/keys.ts:71-75 | and for no other tenant |
| ObjectKeys.KeyDeterminesItsParts | src/lib/storage/keys.ts:52-61 | a key determines tenant, purpose, object id and sanitised name |
| ObjectKeys.DotsInTheMiddleAreRefused | src/lib/storage/keys.ts:71-75 | `a..b.pdf` makes a key that is refused |
| ObjectNames.BaseFollowsLastSlash | src/lib/storage/keys.ts:85 | the base name is what follows the last slash of either kind |
| ObjectNames.UnsafeRunIsOneHyphen | src/lib/storage/keys.ts:86-87 | each maximal run of unsafe characters becomes one hyphen and the safe characters around it keep their order |
| ObjectNames.GapIsOneHyphen | src/lib/storage/keys.ts:86-91 | both replacements together: a word stays, and whatever mixture of hyphens and unsafe characters follows it becomes one hyphen |
| ObjectNames.LeadIsStripped | src/lib/storage/keys.ts:92 | leading dots and hyphens go, all of them and nothing else |
| ObjectNames.TailIsStripped | src/lib/storage/keys.ts:93 | trailing hyphens go, all of them and nothing else |
| ObjectNames.TwoWords | src/lib/storage/keys.ts:84-96 | from path to name: two words with a gap, dots before and a gap behind, come out as the words with one hyphen, cut at 120 |
| ObjectNames.NothingLeft | src/lib/storage/keys.ts:94-95 | where nothing is left the name is `file` |
| ObjectNames.KeyIsSpelled | src/lib/storage/keys.ts:41-61 | the segments of a key, in order |
| ObjectNames.KeyBelongsExactly | src/lib/storage/keys.ts:71-75 | a key is accepted for a tenant if and only if it lies under the tenant's prefix and has no pair of dots |
| Uploads.StepKeeps | src/lib/media/attachments.ts:164-288 | every step of every actor keeps rows, objects and half-done processes in order |
| Uploads.RunKeeps | src/app/(tenant)/teach/actions.ts:305-541 | so does every interleaving, crashes included |
| Uploads.ReadyRowsHaveTheirObject | src/db/repositories/lessons.ts:128-149 | a row offered with a key names an object in the bucket unless its removal has begun or an object of its was rejected and deleted |
| Uploads.SupersedingSparesNamedObjects | src/app/(tenant)/teach/actions.ts:452-463 | superseding and detaching never delete an object a surviving row names |
| Uploads.RemovalThatDiesLeavesSilence | src/app/(tenant)/teach/actions.ts:509-537 | the first excuse is real: a removal that dies between its halves leaves a ready row without its object |
| Uploads.RejectionLeavesSilence | src/app/(tenant)/teach/actions.ts:357-367 | the second excuse is real: a ready row whose object is put again as something else loses it |
| Uploads.ReservationBetweenLeavesTwo | src/app/(tenant)/teach/actions.ts:371-387 | from any state, a reservation between a completion's list and its commit leaves two audio rows after success |
| Uploads.OverlappingCompletionsLeaveNoAudio | src/app/(tenant)/teach/actions.ts:371-433 | two overlapping completions delete each other's rows |
| Replacement.AudioComesFromReservations | src/app/(tenant)/teach/actions.ts:219-260 | over any stretch of steps a lesson gains audio by reservations alone |
| Replacement.CommitLeavesWhatCameIn | src/app/(tenant)/teach/actions.ts:371-450 | for every interleaving between list and commit: the audio left is what is there at the commit less what was listed, and it is the completed row alone if and only if that row is still there and no audio came in |
| Replacement.CommitLeavesItsRow | src/app/(tenant)/teach/actions.ts:371-450 | with no reservation in between: no audio but its own row, that row if and only if nobody took it away, ready, and everything that is not the lesson's audio stands |
| Replacement.StaysUnderWay | src/app/(tenant)/teach/actions.ts:321-450 | every bystander's step leaves a completion's row and its list good |
| Replacement.CompletionReplaces | src/app/(tenant)/teach/actions.ts:305-468 | from first transaction to success among bystanders: the row is there and ready, and is the one audio row of the lesson if and only if it is audio |
| UploadScripts.RemovalIsReached | src/app/(tenant)/teach/actions.ts:509-537 | from an empty platform to a ready row without its object, by a removal that dies |
| UploadScripts.RejectionIsReached | src/app/(tenant)/teach/actions.ts:357-367 | the same by a rejection, with no removal begun |
| UploadScripts.IntrusionIsReached | src/app/(tenant)/teach/actions.ts:371-450 | from an empty platform to two audio rows after one completion that succeeded |
| UploadScripts.OverlapIsReached | src/app/(tenant)/teach/actions.ts:371-433 | from an empty platform to no audio row after two completions that succeeded |
| UploadDesk.MediaDesk.Reserve | src/app/(tenant)/teach/actions.ts:194-274 | the row is written whenever the checks pass; a ticket follows if and only if the sanitised name has no pair of dots |
| UploadDesk.MediaDesk.Inspect | src/lib/media/attachments.ts:176-194 | fit, absent, rejected or thrown, as `VerdictExactly` tells them apart; the size of what is fit; and that a misfit, and nothing else, is deleted |
| UploadDesk.VerdictExactly | src/lib/media/uploads.ts:68-77 | which answer each object gets: recordings by their fitness as audio, documents by their fitness as documents |
| UploadDesk.KeyForIff | src/app/(tenant)/teach/actions.ts:321-346 | a caller finds a key if and only if they may author the place and the row there is the tenant's and has it |
| UploadDesk.MediaDesk.CompleteUpload | src/app/(tenant)/teach/actions.ts:305-468 | Done if and only if uploads are configured and the caller's own key names an object there that is fit as audio, Rejected if and only if that object is unfit and can be deleted; the new rows and bucket; an error changes no row and at most its own object |
| UploadDesk.MediaDesk.CleanUp | src/app/(tenant)/teach/actions.ts:452-463 | every superseded object that can be deleted is, whatever became of the others |
| UploadDesk.MediaDesk.ConfirmAttachment | src/lib/media/attachments.ts:164-230 | Done if and only if the caller's own key names an object there that is fit as a document, Rejected if and only if it is unfit as one and can be deleted; an error changes no row and at most its own object |
| UploadDesk.MediaDesk.RemoveResource | src/app/(tenant)/teach/actions.ts:477-542 | the row goes whatever became of the object; a link is denied |
| UploadDesk.MediaDesk.RemoveAttachment | src/lib/media/attachments.ts:233-288 | the row goes, a link too, and then the object if it can |
| UploadDesk.ReplaceMeansReplace | src/app/(tenant)/teach/actions.ts:369-445 | of the action undisturbed: its row is the lesson's one audio row if and only if it is audio, otherwise there is none, and everything else stands |
| UploadDesk.UndisturbedCompletion | src/app/(tenant)/teach/actions.ts:321-450 | the link between the two models: the protocol's four steps with nobody else moving do to the rows what the desk's action does |
| DeskProtocol.UndisturbedReservation | src/app/(tenant)/teach/actions.ts:219-274 | a reservation step writes the desk's row, and a file can be sent if and only if the desk hands out a ticket |
| DeskProtocol.RecordingIsChecked | src/app/(tenant)/teach/actions.ts:348-367 | for audio, Done, NotArrived and Rejected at the desk are the process going on to its commit, ending, and going on to delete, each if and only if |
| DeskProtocol.DocumentIsChecked | src/lib/media/attachments.ts:176-194 | the same for documents, with the process going on to record the size |
| DeskProtocol.RejectionEnds | src/app/(tenant)/teach/actions.ts:362-367 | a rejecting process ends with the bucket the desk leaves |
| DeskProtocol.StrangeKeysThrow | src/lib/storage/keys.ts:63-75 | a key that is not the tenant's throws at the desk and ends the process, whatever the bucket holds |
| DeskProtocol.UndisturbedConfirmation | src/lib/media/attachments.ts:164-230 | a document that passed ends with its size recorded and the bucket as it was |
| DeskProtocol.UndisturbedCleanUp | src/app/(tenant)/teach/actions.ts:452-463 | in whatever order it takes the keys, the process leaves the bucket the desk's loop leaves |
| DeskProtocol.UndisturbedRemoval | src/app/(tenant)/teach/actions.ts:477-542 | object and row go as `RemoveResource` says |
| DeskProtocol.UndisturbedDetachment | src/lib/media/attachments.ts:233-288 | row and object go as `RemoveAttachment` says |
| Invitations.IssueKeepsTables | src/lib/auth/invitations.ts:131-153 | superseding keeps one pending invitation per institute and address |
| Invitations.StandingIsKeptIff | src/lib/auth/invitations.ts:301-323 | joining keeps a member's rank if and only if it is not an instructor spending a student invitation, and never touches an admin |
| Invitations.FinishExactly | src/lib/auth/invitations.ts:256-282 | the transaction row by row, both ways: spent, joined with its role (an admin's kept) and its answers, address proven, all else as it was |
| Invitations.InvitationStore.constructor | src/db/schema/identity.ts:124-164 | empty tables |
| Invitations.InvitationStore.Issue | src/lib/auth/invitations.ts:106-161 | issued if and only if every pending invitation for the address here is fifteen minutes old; then the new row and exactly which rows it superseded |
| Invitations.InvitationStore.FindPending | src/lib/auth/invitations.ts:179-228 | a usable invitation for this token at this institute, or that there is none |
| Invitations.InvitationStore.FindAccount | src/db/client.ts:169-182 | the account with the address, or that nobody has it |
| Invitations.InvitationStore.Complete | src/lib/auth/invitations.ts:251-283 | true exactly when the row was there and unspent; then it is consumed, the membership has its answers and its role unless it was an admin's, the address is proven, and nothing else is touched; otherwise nothing |
| Invitations.InvitationStore.Sweep | src/lib/auth/invitations.ts:395-428 | exactly the outlived rows of this institute go, unspent ones past their expiry and spent ones after ninety days, counted by kind |
| Invitations.InvitationStore.ActivateNewAccount | src/app/api/tenant/activate/route.ts:98-131 | the reply for each of its refusals, and the account and membership otherwise |
| Invitations.InvitationStore.ActivateWith | src/app/api/tenant/activate/route.ts:75-96 | the three cases, and who joins in each |
| Invitations.InvitationStore.Activate | src/app/api/tenant/activate/route.ts:54-96 | every reply for every state, and that whoever joins holds the invitation's address |
| Activation.StepKeeps | src/app/api/tenant/activate/route.ts:54-151 | every step of every actor keeps tables, history and half-done requests in order |
| Activation.RunKeeps | src/app/api/tenant/activate/route.ts:54-151 | so does every interleaving |
| ActivationSafety.ActivationIsSafe | src/lib/auth/invitations.ts:251-361 | in any run an invitation joins at most one user, is consumed if and only if it has, and the user holds its address and is a member of its institute |
| ActivationSafety.MembershipsComeFromInvitations | src/lib/auth/invitations.ts:256-282 | a step spends one pending invitation, writes its membership and logs it, or does none of the three |
| ActivationSafety.AdminsStayAdmins | src/lib/auth/invitations.ts:308-322 | over any run nobody loses a membership and no admin is made less |
| ActivationSafety.InstructorsCanBeDemoted | src/lib/auth/invitations.ts:319 | an instructor who spends a student invitation becomes a student |
| ActivationScript.DemotionIsReached | src/lib/auth/invitations.ts:319 | from an empty platform to an instructor made a student |
| ActivationSafety.NeverStuck | src/app/api/tenant/activate/route.ts:70-131 | from every reachable state a pending, unexpired invitation has a continuation to its membership, with its answers and its role unless an admin's was there |
| ActivationRules.AdminsAreMade | src/lib/auth/invitations.ts:308-322 | after any run somebody is an admin if and only if they were one before, an operator made them one, or they spent an admin's invitation of that institute |
| ActivationRules.LinkOpensExactly | src/lib/auth/invitations.ts:179-228 | from any reachable state a link opens, for its own institute and token, for exactly seventy-two hours from its issue unless it is spent or followed by another for its address |
| ActivationRules.LivesUntilKilled | src/lib/auth/invitations.ts:131-153 | while its time runs a pending invitation stays pending until one of the two happens; sweeps and crashes do not count |
| ActivationRules.OnlyTheOwnerGoesOn | src/app/api/tenant/activate/route.ts:75-96 | whatever others do in between, a request for an address somebody has goes on for that account alone, and where its address is proven only with its owner signed in |
| ActivationRules.NewcomersSignUp | src/app/api/tenant/activate/route.ts:98-131 | for an address nobody has: on if and only if the password is long enough, to an unproven account with that address which is the one that joins |
| ActivationRules.CompletionsEnd | src/lib/auth/invitations.ts:251-283 | the last transaction ends its request, and writes if and only if the invitation was there and unspent |
| ActivationRules.RequestsBegin | src/app/api/tenant/activate/route.ts:70-73 | a request begins if and only if its link opens, for the address it was mailed to |
| ActivationRules.InvitationsAreMinted | src/lib/auth/invitations.ts:106-156 | an institute's first invitation is an admin's, any other is as asked, each for its normalised address and seventy-two hours, and remembered so |
| IssueRate.RunKeepsRate | src/lib/auth/invitations.ts:112-156 | in any run two unspent issues for an address are a cooldown apart, and the earlier is pending, superseded or expired |
| IssueRate.LastIssueIsLate | src/lib/auth/invitations.ts:45 | the last of n unspent issues comes n - 1 cooldowns after any time they all came after |
| IssueRate.IssuesAreSpaced | src/lib/auth/invitations.ts:106-161 | n issues within a window with none spent in between satisfy (n - 1) x 15 min <= window, sweeps included |
| Access.AuthorsMayRead | src/lib/access/authoring.ts:104-126 | whoever may author a lesson may read it, for the same reason unless it is open to all |
| Access.CourseAuthorsReadEveryLesson | src/lib/access/authoring.ts:44-76 | an author of a course may author and read every lesson it reaches |
| Access.EntitlementIsLocal | src/db/repositories/entitlements.ts:71-116 | an entitlement is decided by the institute's own rows |
| Access.ReadsAreLocal | src/db/repositories/lessons.ts:29-65 | so is every read the predicates stand on |
| Access.SourcesAreLocal | src/db/repositories/entitlements.ts:391-410 | so is what an admin can grant |
| Access.AuthoringIsLocal | src/lib/access/authoring.ts:44-126 | so is every authoring decision, on course, module and lesson |
| Access.DecisionsAreLocal | src/lib/access/predicate.ts:68-120 | so is every access decision, with a session and without |
| Access.WritesElsewhereChangeNothing | src/lib/access/predicate.ts:68-120 | two databases with the same rows of an institute decide alike there |
| AccessRules.ReadsExactly | src/lib/access/predicate.ts:68-120 | the whole decision by rows, for every session and role: each reason if and only if, and who is kept out |
| AccessRules.StudentsReadWhatTheirPageLists | src/lib/access/predicate.ts:110-120 | a student, or an instructor of other courses, reads a lesson that is no preview if and only if their profile list says its course is open |
| AccessRules.StrangersReadPreviews | src/lib/access/predicate.ts:83-91 | without a session or without a membership exactly the previews are read |
| AccessRules.OnlyOwnLessonsOpen | src/db/repositories/lessons.ts:29-65 | whoever may read or author a lesson finds lesson, module and course at this institute |
| AccessRules.FindsItsCourse | src/db/repositories/lessons.ts:29-65 | the join finds a lesson with its module and course if and only if all three are this institute's |
| AccessRules.EntitledExactly | src/db/repositories/entitlements.ts:71-116 | entitled if and only if a row of theirs, unexpired, is for the course or for a program that holds it |
| AccessRules.AuthorsExactly | src/lib/access/authoring.ts:44-126 | admins author everything, instructors what they are assigned, students nothing, of course, module and lesson alike and for which reason |
| AccessRules.CourseAuthorsExactly | src/lib/access/authoring.ts:44-102 | the same of a course without lessons and of each of its modules |
| AccessRules.NobodyAuthorsElsewhere | src/lib/access/authoring.ts:49-57 | of another institute's course or module, or of none, nobody is an author |
| EnrolledCourses.FoldOneMore | src/db/repositories/entitlements.ts:321-330 | an entry displaces the one kept only by outranking it, which keeps the first maximal one |
| EnrolledCourses.KeepBest | src/db/repositories/entitlements.ts:304-316 | the loop keeps for each course the first row that none of the course outranks |
| EnrolledCourses.OrderDoesNotMatter | src/db/repositories/entitlements.ts:304-316 | whatever the row order, the same courses with the same expiry |
| EnrolledCourses.ListAgreesWithPredicate | src/db/repositories/entitlements.ts:225-330 | under the foreign keys the list says a course opens if and only if the predicate holds and the course exists |
| EnrolledCourses.EntryComesFromItsRow | src/db/repositories/entitlements.ts:229-293 | every row of either join stands for one enrollment of the person, with its kind, its expiry and whether it was granted |
| EnrolledCourses.ListEnrolledCourses | src/db/repositories/entitlements.ts:225-320 | so does the method, at every instant; each entry says of one enrollment what it covers, how and until when, and a program is named only where it outlasts every purchase of the course |
| EnrolledCourses.ListIsLocal | src/db/repositories/entitlements.ts:229-293 | both joins read the institute's own rows alone |
| Grants.EnrollmentDesk.constructor | src/lib/entitlements/grants.ts:62-72 | a database with nothing logged yet |
| Grants.EnrollmentDesk.GrantEnrollment | src/lib/entitlements/grants.ts:62-141 | every answer in the order of the checks, exactly when a grant is given, and that it adds one row and one audit row, or nothing |
| Grants.EnrollmentDesk.RevokeEnrollment | src/lib/entitlements/grants.ts:160-205 | true exactly for a row of this institute, which is then gone and logged; another's answers as none |
| Grants.AnswersExactly | src/lib/entitlements/grants.ts:62-104 | each refusal if and only if, by rows, in the order asked |
| Grants.OneOpReplays | src/lib/entitlements/grants.ts:124-137 | the row an operation writes is all that is needed to do it again |
| Grants.ReplayReproduces | src/lib/entitlements/grants.ts:62-205 | after any run, replaying the audit rows over the initial enrollments gives the current table |
| Grants.RunKeepsKeys | src/lib/entitlements/grants.ts:88-104 | any run keeps one row per person and source, for members, granted by members |
| Grants.EntitledAfterGrant | src/db/repositories/entitlements.ts:71-116 | a grant adds its own entitlement and no other |
| Grants.GrantOpensExactly | src/lib/access/predicate.ts:68-120 | a grant opens, to one person until it expires, exactly the lessons of the courses it covers |
| AccessRules.GrantedStudentsRead | src/lib/access/predicate.ts:110-120 | a student without a row of their own, once granted the course or a program that holds it, reads each of its lessons until the expiry and not at it; any other grant opens nothing |
| AccessRules.SourcesExactly | src/db/repositories/entitlements.ts:391-410 | what can be granted is the institute's own programs and courses, all of them |
| Grants.RevokeUndoesGrant | src/lib/entitlements/grants.ts:160-205 | a grant, any operations that have nothing to do with it, and its revocation leave every table as those operations alone would |
| Grants.GrantsElsewhereOpenNothingHere | src/lib/access/predicate.ts:68-120 | no run of grants and revocations at other institutes changes an access decision here |
| Markdown.RenderInline | src/lib/markdown/render.tsx:100-154 | the loop's output is the parse of the text |
| Markdown.MatchIsLocal | src/lib/markdown/render.tsx:101-102 | a match looks at nothing before it |
| Markdown.TokenIsItsNode | src/lib/markdown/render.tsx:111-147 | a matched token and the node it is dispatched to print the same, so the second link pattern never fails |
| Markdown.NodeIsItsToken | src/lib/markdown/render.tsx:101-147 | a printed node, whatever follows it, is matched whole and dispatched back |
| Markdown.PrintUndoesParse | src/lib/markdown/render.tsx:100-154 | printing the nodes of any text gives the text back |
| Markdown.ParseIsNormal | src/lib/markdown/render.tsx:95-99 | no text holds a position where an alternative matches, no two texts touch, and every link let through is http or https |
| Markdown.ParseUndoesPrint | src/lib/markdown/render.tsx:100-154 | parsing a printed normal list gives the list |
| Markdown.RoundTripIffNormal | src/lib/markdown/render.tsx:100-154 | a list survives the round trip if and only if it is normal, and normal lists that print alike are equal |
| Markdown.LinksAreSafe | src/lib/markdown/render.tsx:35-36 | every link of a normal list goes to http or https |
| InlineGrammar.MatchesExactly | src/lib/markdown/render.tsx:101-102 | the scanner sees a token if and only if what stands there is bold, italic, code or an anchor, each spelled out on characters; the order of the alternatives decides nothing |
| InlineGrammar.LinkIsLetThroughIff | src/lib/markdown/render.tsx:36-147 | an anchor becomes a link if and only if its address, in lower case, begins with `http://` or `https://`, and otherwise the text it was |

## Left out

- `renderMarkdown`: splitting into blocks, headings and lists, which is straight-line around the scanner.
- `resolveSingleTenant`: the self-hosted mode, where nothing is looked up by host.
- `listTenants`, `listRoster`, `listEnrollmentDetails`, `listLessonsForCourse`: reads with no property beyond their query.
- Orderings: `localeCompare`, `createdAt` and `sortOrder`; lists are sets, maps or sequences in any order, and titles are not carried.
- React components, forms, pages and the player; mail bodies; environment parsing; seed and setup scripts.
- Postgres itself: transactions are atomic and serial, row-level security adds nothing to the explicit filters, migrations are not part of this model.
- Membership, course and tenant deletion with their cascades; no code here deletes them.
- Unicode: trimming and lowering are ASCII, and a character is one character.
- `checkUpload`: two bits the object carries; sizes and types are not looked into.
- Audit rows other than those of grants, DNS records, error texts, durations, `isDownloadable`, and the names a person gives.
- The name of a tenant in a resolved context: only id and slug are carried.
- The sweep's invitation half in the loop over institutes: `InvitationStore.Sweep` is one turn of it, on tables of its own.
- DomainLifecycle.DomainService.Attach: the message that custom hostnames are not configured is not told from the other errors; the tables are as after them.
- DomainLifecycle.DomainService.Refresh: the configured check is not told from an answer that does not come, which changes as little.
- DomainLifecycle.DomainService.RefreshAll: what the cache is told is the business of `Refresh`; the loop does not collect it. `Resolving` takes writes and invalidations as separate events.
- DomainLifecycle.DomainService.ListDomains: in any order, where the query sorts by creation.
- PlatformSweep.SweepTenants: one instant stands for the clock readings of the whole sweep, Cloudflare's answers carry their own; of the five counts only released and failed are kept.
- EnrolledCourses.ListEnrolledCourses: a map by course, without titles and slugs and so without the sort by title.
- Uploads.ReadyRowsHaveTheirObject: holds with the two excuses it names; `UploadScripts` shows both are needed.
- UploadDesk.MediaDesk.Reserve: the fresh id is assumed free, and `requestUploadAction` and `reserveAttachment` differ only in which check and table are meant.
- Activation.RunKeeps: a sign-up that refuses or fails ends its request as a crash does.
