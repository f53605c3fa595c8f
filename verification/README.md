# HRPulsar: proofs about its stateful core

This Dafny project models the parts of HRPulsar that keep state over time, fold data through loops, or decide
what somebody may see, and proves what each of them promises for every input, every run or every reachable
state. One module stands for one component; several share a component where it falls into a specification, the
code that meets it and the theorems about it.

- **Assessment recompute** (`RecomputeSpec`, `Recompute`, `RecomputeRun`, `RecomputeTheorems`, `RecomputeRaise`,
  `RecomputeWeights`, `FiniteSums`).
  The migration that recomputes a finished assessment files answers into nested dictionaries and folds them
  through a mean per indicator, a weighted mean per level, a mean over levels and a mean over roles, then rounds
  and looks up a band. The loops are methods proved equal to `CompetenceScore`, a definition over the multiset of
  counted answers; the theorems are about that definition. Numbers are exact reals; `RoundHalfEven` is Python's
  `round`.
- **Section access** (`Sections`, `SectionRegistry`, `SectionMemo`, `SectionRows`). The matrix of roles and sections
  with overrides, hidden sections, ceilings and the lockout floor; the owner of a route; a database session as a class
  with pending rows, visible rows, savepoints and the memo that several events drop; and what the stored rows come to.
- **Division reachability** (`AccessScope`). The queue walk over a parent relation that may be cyclic, and the
  scopes built on it.
- **WebSocket fan-out** (`Fanout`, `FanoutIndex`, `FanoutSystem`). Channel names, one process's two socket
  indexes, and a step system of several processes fed by one FIFO log. Between any two steps the event loop may
  switch, so a send loop is interrupted by connects, disconnects and publishes.
- **Throttle** (`Throttle`). A counter with an anchored expiry over a clock, as runs of hits.
- **AI call context** (`CallContext`). The context variable with its tokens, task bodies as program trees that may
  raise at any point, may bind the inherited work unit or a default and make calls that are charged to the context in
  force, and a worker that works a queue off on one variable.
- **Client address** (`ClientIp`, with `Text`). Trusted proxies and the right-most hop none of them owns.
- **Locale** (`Locale`, `LocaleHeader`, with `Text`). The settings validator, quality values, headers as clients write
  them, the stable sort and the chain of sources, against sections 12.4.2 and 12.5.4 of RFC 9110.
- **Frontend proxy** (`Proxy`, `ProxyLinks`, `ProxyPages`, `ProxyMap`, `ProxyEmails`). `Respond` is the decision for a
  document request; `Follow` follows the redirects of a browser with cookies per host.
- **Delete guards** (`DeleteGuards`, `ForeignKeySweep`). The two triggers over runs of inserts, updates, deletes,
  cascades and replica-mode statements; the foreign-key sweep and its way back.
- **Template locale migration** (`TemplateLocale`) and **role reconciliation** (`RoleReconcile`).

`Common` holds a few stock datatypes. A loop over a set or dictionary visits its elements in no particular order.

## Findings

Where the code and what is said or expected of it part ways, the model follows the code, the exact condition is
proved, and a lemma names an input.

- Emails: the review link of an invitation to an external evaluator, who has no account, is on none of the proxy's
  lists of token paths, so without a session it ends at the login form. It is the only such link
  (`OnlyReviewIsMissing`, `EmailedLinkIsServed`, `ReviewLinkAsksForLogin`).
- Proxy: the locale cookie belongs to one host, so a link that the check host sends on to the app host opens there
  in whatever locale that host would have shown (`LocaleArrives`, `LocaleIsLost`); an app origin on the check host
  redirects to itself for ever (`EndsUnlessAppIsCheckHost`).
- Recompute: an answer that begins to count, as on leaving a neutral option, lowers its competence's percent if and
  only if its own percent of the top weight is below the mark, the percent of the smallest group already answered
  that it falls into: indicator, level, role or competence (`DropsBelowTheMark`, `RoundedFollowsTheMark`,
  `RaisingANeutralAnswerCanLower`), and one that stops counting does so if and only if it was above the mark of the
  rest (`DropsFromAboveTheMark`). A raise between counted answers never does (`RaisingAnAnswerNeverLowers`). A top
  weight of zero aborts the run at the first answered competence (`RecomputeOne`).
- Recompute: nothing keeps a competence from being listed twice or from having two result rows. One listed twice
  without a row gets two rows, and duplicates stay (`OneRowPerCompetence`, `ListedTwiceGetsTwoRows`).
- Sections: the first known role can take away what an account without any had as an employee
  (`WhenAddingRolesIsSafe`).
- Fan-out: a socket registered for two users of a tenant leaves the tenant's set with the first disconnect
  (`DisconnectKeepsConsistent`). A channel for a user id that is the word `broadcast` would match both patterns and
  deliver twice (`UserCopies`); it cannot arise today, since ids are those of accounts, which are UUIDs.
- Delete guards: the users' trigger takes an absent tenant for one that is being removed, so a user inserted in
  replica mode for a tenant that never was can be deleted. Over whole runs these are exactly the wrong removals
  (`RemovalIsRightUnlessDangling`, `GuardFailsOnDangling`, `DanglingUserIsDeleted`).
- Foreign-key sweep: the downgrade's fallback is meant for a database that never saw the upgrade, but there the
  snapshot table does not exist and the downgrade fails (`Downgrade`).
- Template locale: the downgrade's comment promises that codes are unique again; two rows of one code in two
  locales, none of them English, make it fail (`KeyHolds`, `TwoRowsWithoutEnglish`).
- Role reconciliation: a dry run announces a user who leads divisions in two tenants twice (`DryRunAnnounces`,
  `LeaderOfTwoTenants`).

One bound is sharper than the obvious one: two windows of a throttle can meet within any `ttl` seconds, yet at most
`2 * cap - 1` calls get through, and some run reaches that number (`ThrottleBound`, `BoundIsReached`).

## Model

| member | source | states |
|---|---|---|
| RecomputeTheorems.RoundIsNearest | backend/migrations/versions/asr1a1b2c3d4e5_on_review_status_and_recompute.py:258-260 | an integer is the rounded value if and only if it is nearest, and even on a tie |
| Recompute.FileAnswers | backend/migrations/versions/asr1a1b2c3d4e5_on_review_status_and_recompute.py:202-222 | the nested dictionary has exactly the answered keys, and each list holds the counted values of its key in order |
| Recompute.LevelSums | backend/migrations/versions/asr1a1b2c3d4e5_on_review_status_and_recompute.py:240-249 | the two accumulators are the weighted sum and the sum of weights over the answered indicators, in any order of visit; what the weights are is `RecomputeWeights` |
| Recompute.LevelResult | backend/migrations/versions/asr1a1b2c3d4e5_on_review_status_and_recompute.py:239-253 | a level's percent, or none when its weights cancel out |
| Recompute.RoleAverage | backend/migrations/versions/asr1a1b2c3d4e5_on_review_status_and_recompute.py:237-255 | the mean over the levels that count, in any order of visit |
| Recompute.CompetencePercent | backend/migrations/versions/asr1a1b2c3d4e5_on_review_status_and_recompute.py:235-263 | the mean over the roles that count equals the final percent of the specification |
| Recompute.TopWeight | backend/migrations/versions/asr1a1b2c3d4e5_on_review_status_and_recompute.py:121-124 | the greatest weight of the scale's scored options, none when there is none |
| RecomputeRun.RecomputeOne | backend/migrations/versions/asr1a1b2c3d4e5_on_review_status_and_recompute.py:108-303 | when it writes nothing, when a zero top weight aborts it, and the exact table it leaves otherwise |
| RecomputeRun.PutAllWrites | backend/migrations/versions/asr1a1b2c3d4e5_on_review_status_and_recompute.py:224-303 | from any table with unique ids, the whole table after a run: the row found for each listed competence rescored in place, then one new row for each listing of a competence without any |
| RecomputeRun.RowsAfter | backend/migrations/versions/asr1a1b2c3d4e5_on_review_status_and_recompute.py:224-303 | a competence ends with the rows it had, or with one for each time it is listed where it had none |
| RecomputeRun.OneRowPerCompetence | backend/migrations/versions/asr1a1b2c3d4e5_on_review_status_and_recompute.py:272-303 | a listed competence ends with exactly one row, carrying its score, if and only if it had exactly one, or had none and is listed once |
| RecomputeRun.ListedTwiceGetsTwoRows | backend/migrations/versions/asr1a1b2c3d4e5_on_review_status_and_recompute.py:224-303 | a competence listed twice without a row ends with two |
| RecomputeRun.OtherRowsStay | backend/migrations/versions/asr1a1b2c3d4e5_on_review_status_and_recompute.py:272-287 | every row not found for a listed competence, and every calibrated score, is as it was |
| RecomputeRun.SecondRunChangesNothing | backend/migrations/versions/asr1a1b2c3d4e5_on_review_status_and_recompute.py:224-303 | a second run over the same answers leaves any table with unique ids as it is |
| RecomputeTheorems.OrderIsIrrelevant | backend/migrations/versions/asr1a1b2c3d4e5_on_review_status_and_recompute.py:202-270 | any order of the answers gives every competence the same percent, average and band |
| RecomputeTheorems.RepeatingARoleChangesNothing | backend/migrations/versions/asr1a1b2c3d4e5_on_review_status_and_recompute.py:205-260 | a role that gives all its answers k times weighs no more than one that gives them once |
| RecomputeTheorems.RaisingAnAnswerNeverLowers | backend/migrations/versions/asr1a1b2c3d4e5_on_review_status_and_recompute.py:205-263 | a heavier counted answer never lowers its competence's rounded percent and leaves the other competences alone |
| RecomputeTheorems.RaisingANeutralAnswerCanLower | backend/migrations/versions/asr1a1b2c3d4e5_on_review_status_and_recompute.py:213-222 | an assessment in which leaving a neutral option for a scored one lowers the percent |
| RecomputeWeights.TwoIndicators | backend/migrations/versions/asr1a1b2c3d4e5_on_review_status_and_recompute.py:205-270 | from the rows to the result: where one role answered two indicators of one level, the percent is their plain means, each times the weight in its row, over the sum of the weights, as a share of the top weight; rounded, to four places, and with its band; none when the weights cancel out |
| RecomputeWeights.NoWeightIsOne | backend/migrations/versions/asr1a1b2c3d4e5_on_review_status_and_recompute.py:246-247 | an indicator without a weight, or of weight zero, gives every competence the score that weight one gives |
| RecomputeWeights.TwinsAddUp | backend/migrations/versions/asr1a1b2c3d4e5_on_review_status_and_recompute.py:240-252 | an indicator of weight n and a twin of weight k, answered alike, score as the indicator alone with weight n + k, whatever else was answered: a weight counts as that many indicators |
| RecomputeRaise.AnswerMovesPercent | backend/migrations/versions/asr1a1b2c3d4e5_on_review_status_and_recompute.py:234-258 | one more counted answer moves its competence's percent up, down or not at all as the answer's own percent stands to the mark |
| RecomputeRaise.AnswerLeavesOthers | backend/migrations/versions/asr1a1b2c3d4e5_on_review_status_and_recompute.py:234-258 | and leaves the percents of all other competences alone |
| RecomputeRaise.DropsBelowTheMark | backend/migrations/versions/asr1a1b2c3d4e5_on_review_status_and_recompute.py:205-258 | when an answer begins to count the percent drops if and only if the answer's own is below the mark, and rises if and only if above |
| RecomputeRaise.DropsFromAboveTheMark | backend/migrations/versions/asr1a1b2c3d4e5_on_review_status_and_recompute.py:205-258 | when an answer stops counting the percent drops if and only if the answer's own is above the mark of those that remain, rises if and only if below, and is lost when none remains |
| RecomputeRaise.RoundedFollowsTheMark | backend/migrations/versions/asr1a1b2c3d4e5_on_review_status_and_recompute.py:205-263 | the rounded percent never drops from the mark upwards nor rises from it downwards; other competences keep their results |
| RecomputeTheorems.PercentInRange | backend/migrations/versions/asr1a1b2c3d4e5_on_review_status_and_recompute.py:234-263 | scores between zero and the top weight give a percent in 0..100 and an average in 0..1 |
| RecomputeTheorems.BandIsTheOneContaining | backend/migrations/versions/asr1a1b2c3d4e5_on_review_status_and_recompute.py:265-270 | with bands that partition 0..100 the lookup finds the only band containing the percent |
| RecomputeTheorems.BandsAreMonotone | backend/migrations/versions/asr1a1b2c3d4e5_on_review_status_and_recompute.py:265-270 | a higher percent never gets a lower band |
| Throttle.Server.BumpCounter | backend/app/core/redis.py:37-59 | the key's entry afterwards: a fresh window with count one, or one more hit in the window still open, its end unmoved |
| Throttle.Replay | backend/app/core/redis.py:55-59 | the counter driven through any run on a moving clock keeps the store and returns the counts the theorems are about |
| Throttle.WindowEndsAtItsAnchor | backend/app/core/redis.py:48-58 | over any run a further hit counts one exactly from the moment `ttl` after the hit that opened the window, whatever came between |
| Throttle.ThrottleBound | backend/app/core/redis.py:37-59 | in any interval of `ttl` seconds at most `2 * cap - 1` calls return a count within the cap, however many are made |
| Throttle.BoundIsReached | backend/app/core/redis.py:37-59 | for every cap and every window longer than a second some run lets exactly that many through |
| AccessScope.ManagedDivisionIds | backend/app/core/access_scope.py:150-185 | ends on every parent relation and lists exactly the divisions reachable from a managed one, each once, nearest first |
| AccessScope.DistanceIsUnique | backend/app/core/access_scope.py:173-185 | a division has one distance from the managed ones |
| AccessScope.ReachableByChain | backend/app/core/access_scope.py:159-185 | a division is in the managed subtree if and only if a chain of parents leads to it from one whose manager or deputy the employee is |
| AccessScope.CurrentEmployee | backend/app/core/access_scope.py:188-195 | the caller's own record in the caller's tenant, if there is one |
| AccessScope.VisibleEmployeeIds | backend/app/core/access_scope.py:217-245 | no restriction for the admin level, otherwise exactly the own record and the records in reach |
| AccessScope.PayVisibleEmployeeIds | backend/app/core/access_scope.py:356-373 | the visible records without those of admin-level people |
| AccessScope.AssertEmployeeWriteScope | backend/app/core/access_scope.py:289-353 | a write is let through if and only if the level is `manage` and the caller is admin-level, or has the target in reach and the target is not admin-level; which refusal otherwise |
| ClientIp.ParseTrustedProxies | backend/app/core/client_ip.py:44-59 | exactly the networks that some entry of the list reads as |
| ClientIp.ResolveClientIp | backend/app/core/client_ip.py:72-105 | the right-most untrusted hop behind a trusted peer, and which networks are trusted under which settings |
| ClientIp.AnswerIsUnique | backend/app/core/client_ip.py:84-105 | peer and header determine the answer |
| ClientIp.ForwardedHops | backend/app/core/client_ip.py:78-94 | what proxies append is read back as hops, after whatever the client sent |
| ClientIp.ForgedHeaderHasNoEffect | backend/app/core/client_ip.py:72-97 | behind any chain of trusted proxies an untrusted client resolves to its own address for every header it sent |
| ClientIp.UntrustedPeerStandsForItself | backend/app/core/client_ip.py:90-91 | from an untrusted peer the header has no effect |
| ClientIp.MaskIsRange | backend/app/core/client_ip.py:62-69 | membership in a network is a range of addresses |
| ClientIp.PrivateRanges | backend/app/core/client_ip.py:31-41 | the fallback trusts exactly the private, loopback and unique local ranges |
| Locale.ValidateLocales | backend/app/config.py:407-444 | accepted if and only if the list is not empty, every code is two letters and the default is listed; then the settings are well-formed |
| LocaleHeader.ListIsReadBack | backend/app/config.py:407-444 | a list of two-letter codes, spaced and with a comma too many, is read back as those codes in order, and with one of them as the default it is well configured |
| LocaleHeader.ConfiguredCodes | backend/app/config.py:430-435 | a well-configured list holds nothing but codes of two letters from a to z |
| Locale.Normalize | backend/app/core/i18n.py:189-200 | whatever a tag is mapped onto is an available locale |
| Locale.NormalizeIsPrimary | backend/app/core/i18n.py:189-200 | a tag is mapped onto a locale if and only if that is available and the tag's primary subtag in lower case |
| Locale.QualityGrammar | backend/app/core/i18n.py:26 | the expression accepts exactly the weights of RFC 9110, section 12.4.2 |
| Locale.QualityRoundTrip | backend/app/core/i18n.py:222-223 | every quality in thousandths can be written and is read back as itself |
| Locale.SortIsStable | backend/app/core/i18n.py:227 | the sort descends, permutes and keeps header order on ties |
| Locale.ParseAcceptLanguage | backend/app/core/i18n.py:203-228 | the loop returns the sorted tags of the admitted entries; which entries those are is `LocaleHeader.HeaderIsReadBack` |
| Locale.HeaderChoosesBest | backend/app/core/i18n.py:242-245 | the first supported tag of the sorted list is the supported entry of highest quality, earliest on ties |
| LocaleHeader.HeaderIsReadBack | backend/app/core/i18n.py:203-228 | a header written from preferences, with any other parameters, is read back as those preferences in order: 1000 thousandths where no quality is written, and those of quality zero, with a malformed quality and the wildcard gone |
| LocaleHeader.WrittenHeaderChooses | backend/app/core/i18n.py:203-247 | of a header as written, the supported preference of the highest quality decides, the first one among equals; none when none stands |
| Locale.BestIsUnique | backend/app/core/i18n.py:227-245 | there is one such entry |
| Locale.ResolveLocale | backend/app/core/i18n.py:231-247 | the first supported one of account, tenant and browser, and always an available locale |
| Locale.ResolveFromRequest | backend/app/core/i18n.py:159-186 | header, cookie and token claim outrank the browser, and the answer is always available |
| Sections.LevelIsStrongest | backend/app/core/sections.py:398-418 | a section's level is reached by one of the roles that count and exceeded by none |
| Sections.MoreRolesNeverLower | backend/app/core/sections.py:404-418 | for an account that holds a known role further roles lower nothing |
| Sections.WhenAddingRolesIsSafe | backend/app/core/sections.py:405-410 | adding roles lowers nothing in any matrix if and only if a known role was held before, none is held afterwards, or `employee` is among them |
| Sections.StoredLevelDecides | backend/app/core/sections.py:380-395 | a role's level, the admin of a locked section aside: nothing in a hidden section, else the stored level and, only without one, the default, cut to exactly the ceiling where it exceeds it |
| Sections.SetOverride | backend/app/core/sections.py:388 | storing a level at least as high as what the cell asked for lowers no cell of the section; that the stored level is used is `StoredLevelDecides` |
| Sections.RaisingAndHiding | backend/app/core/sections.py:380-418 | raising overrides never lowers a section and hiding more never raises one |
| Sections.CellUnderCeiling | backend/app/core/sections.py:391-395 | a cell is above its ceiling if and only if the admin floor lifts it there |
| Sections.LevelUnderCeilings | backend/app/core/sections.py:391-418 | no level exceeds the ceilings of the roles that count |
| Sections.AdminIsNeverLockedOut | backend/app/core/sections.py:393-395 | whatever the tenant saves, an admin manages every admin-locked section |
| Sections.GateIsAThreshold | backend/app/core/sections.py:421-430 | the gate lets exactly the levels from `manage` up through to write on a section that does not guard itself, and from `view` up otherwise, reading being GET, HEAD and OPTIONS |
| Sections.GateIsMonotone | backend/app/core/sections.py:424-430 | a level is never denied what a lower one may do, and `manage` nothing |
| Sections.SectionForPath | backend/app/core/sections.py:361-373 | the owner of the longest prefix matching on a segment boundary, none exactly when nothing matches |
| Sections.OwnsSegments | backend/app/core/sections.py:357-373 | a prefix owns a path if and only if the path's segments begin with `api` and the prefix's own |
| Sections.OwnerIgnoresOrder | backend/app/core/sections.py:365-373 | without a shared prefix every order of the registry gives the same owner |
| Sections.RegistryIsSound | backend/app/core/sections.py:77-281 | in the fifteen sections no default exceeds its ceiling, the admin is nowhere capped and locked sections cannot be hidden |
| SectionRegistry.RegistrySharesNoPrefix | backend/app/core/sections.py:77-281 | no two of the fifteen sections have one code or claim one prefix |
| SectionRegistry.GuardedBy | backend/app/core/sections.py:77-373 | which section guards a route, prefix by prefix: the one the longest of its prefixes belongs to, and none for a route under none of them |
| SectionRegistry.DefaultAccess | backend/app/core/sections.py:77-281 | who manages and who views each section where nothing is stored |
| SectionRegistry.HighestAccess | backend/app/core/sections.py:77-395 | the highest level each role can be given in each section, whatever is stored, and that storing `manage` gives exactly that |
| SectionRegistry.AdminKeeps | backend/app/core/sections.py:77-395 | the admin manages a section whatever is stored and hidden if and only if it is one of six |
| SectionRegistry.HidingCloses | backend/app/core/sections.py:77-390 | hiding closes a section to every role, or does nothing in the seven that stay visible |
| SectionRegistry.GateChecksWrites | backend/app/core/sections.py:77-430 | in which sections the gate itself refuses a viewer's writes, and that it refuses no viewer's read |
| SectionMemo.EffectiveLevelOf | backend/app/core/sections.py:411-418 | with distinct codes the map holds every section's own level |
| SectionMemo.Session.MatrixLevels | backend/app/core/sections.py:453-481 | the answer is the uncached evaluation over the rows visible after the read's own flush, as a fresh copy |
| SectionMemo.Session.LevelsFor | backend/app/core/sections.py:484-495 | the narrowed copy, with the memo untouched |
| SectionMemo.Session.FlushPending | backend/app/core/sections.py:438-441 | pending rows become visible and the memo stays sound |
| SectionMemo.Session.ExecuteWrite | backend/app/core/sections.py:444-450 | a bulk write changes the visible rows and the memo stays sound |
| SectionMemo.Session.RollBack | backend/app/core/sections.py:438-441 | the rows return to the saved state and the memo stays sound |
| SectionMemo.MemoIsTransparent | backend/app/core/sections.py:433-495 | over any run of changes, flushes, bulk writes, savepoints, rollbacks, commits, reads and callers' edits every read answers as if nothing were cached |
| SectionRows.RowsDecide | backend/app/modules/company/service.py:1085-1114 | what a caller of one role reads for a section, from the stored rows: nothing if its tenant hid it and may, else the tenant's stored level while it respects the ceiling, else the default |
| SectionRows.TenantsAreApart | backend/app/modules/company/service.py:1085-1114 | what a tenant's users read depends on that tenant's rows alone |
| SectionRows.PlatformAdminManagesAll | backend/app/core/sections.py:466-467 | a platform admin reads `manage` for every section and for nothing else |
| SectionRows.LatestChangeDecides | backend/app/core/sections.py:468-475 | of the pending changes a flush writes, the latest to a cell or to a section's hiding decides it, and the rest stays as it was |
| SectionRows.RollbackUndoes | backend/app/core/sections.py:438-441 | whatever was done under a savepoint, rolling back to it leaves the state it was set in, the outer ones still there |
| SectionRows.ReleaseKeeps | backend/app/core/sections.py:438-441 | released, the work under a savepoint stays |
| SectionRows.TransactionEnds | backend/app/core/sections.py:438-441 | a transaction rolled back leaves the state it began in; committed, its end is where the next begins |
| Fanout.UserChannelRoundTrip | backend/app/core/websocket.py:29-30 | a user's channel is read back as that user, for ids without a colon |
| Fanout.TenantChannelRoundTrip | backend/app/core/websocket.py:33-34 | a tenant's channel is read back as that tenant |
| Fanout.ParseIsExact | backend/app/core/websocket.py:98-111 | a channel is read as a user or a tenant if and only if its parts say so; every other name is dropped |
| Fanout.UserCopies | backend/app/core/websocket.py:37-38 | the two patterns deliver a user's message once, twice exactly for the id `broadcast` |
| Fanout.TenantCopies | backend/app/core/websocket.py:37-38 | they deliver a tenant's message once |
| FanoutIndex.ConnectKeepsConsistent | backend/app/core/websocket.py:57-61 | connecting keeps every tenant's set the union of its users' sets |
| FanoutIndex.DisconnectKeepsConsistent | backend/app/core/websocket.py:63-73 | disconnecting keeps it so if and only if the socket is registered for no other user of the tenant |
| FanoutIndex.TargetsAreAddressed | backend/app/core/websocket.py:98-111 | a message reaches exactly the sockets registered for an address it is meant for |
| FanoutIndex.ConnectionManager.Connect | backend/app/core/websocket.py:57-61 | both indexes gain the socket and nothing else |
| FanoutIndex.ConnectionManager.Disconnect | backend/app/core/websocket.py:63-73 | both indexes lose the socket, and an entry with its last socket |
| FanoutIndex.ConnectionManager.SendLocal | backend/app/core/websocket.py:91-96 | every working socket gets the message once, and a broken one does not stop the loop |
| FanoutIndex.ConnectionManager.Dispatch | backend/app/core/websocket.py:98-111 | each working socket the channel is meant for gets the message once; nobody else does |
| FanoutSystem.RunKeeps | backend/app/core/websocket.py:57-134 | the system invariant holds after every sequence of steps on any number of processes |
| FanoutSystem.OwnMessagesInOrder | backend/app/core/websocket.py:91-134 | a socket receives only messages for its own user or tenant, in publish order |
| FanoutSystem.NoMessageTwice | backend/app/core/websocket.py:91-134 | none twice, provided no message goes to a user called `broadcast` |
| FanoutSystem.TenantSetsAreUnions | backend/app/core/websocket.py:57-73 | in every process each tenant's set is the union of its users' sets at every moment |
| FanoutSystem.NothingIsLost | backend/app/core/websocket.py:91-134 | while it stays registered and its sends work, a socket's sent and upcoming messages are all those published for it |
| FanoutSystem.ConnectAttaches | backend/app/core/websocket.py:57-61 | a socket connecting to a process that listens is attached, and so is a connected one whose process begins to listen |
| FanoutSystem.PublishArrives | backend/app/core/websocket.py:57-134 | while a socket stays attached and its sends work, it receives whatever is published to its user or its tenant |
| CallContext.ContextVar.Bind | backend/app/core/ai_usage_hooks.py:80-84 | tenant, user, action, object type, object and work unit each are what was given, or where nothing was given what they were before, none without a context; the token remembers what was there |
| CallContext.ContextVar.Unbind | backend/app/core/ai_usage_hooks.py:87-92 | a live token restores what it remembers; a spent or foreign one clears |
| CallContext.ContextVar.WorkUnitOr | backend/app/core/ai_usage_hooks.py:106-111 | the current work unit if there is one, otherwise the default |
| CallContext.FieldsOf | backend/app/modules/recruitment/tasks/analysis.py:194-200 | the fields of a bind, its work unit the inherited one or the default at that moment |
| CallContext.Run | backend/app/core/ai_usage_hooks.py:95-103 | a body of binds, nested contexts, enqueues and calls, cut short or not, does what its meaning says, and a context restores what was before it |
| CallContext.Worker.Prerun | backend/app/core/celery_signals.py:60-68 | the task starts from its own header and its token is kept under its id |
| CallContext.Worker.Postrun | backend/app/core/celery_signals.py:71-74 | the context is what it was before prerun |
| CallContext.Worker.Perform | backend/app/core/celery_signals.py:152-176 | whatever the body did or raised, the worker is idle again with an empty context |
| CallContext.WorkOff | backend/app/core/celery_signals.py:48-74 | a worker running task after task on one variable does what it would if each task started from nothing but its header |
| CallContext.NoForeignUnit | backend/app/core/celery_signals.py:48-74 | a task never carries a work unit that its own chain of enqueues does not name, and no call it makes is charged to one |
| CallContext.ScopesAgree | backend/app/core/ai_usage_hooks.py:80-111 | merging contexts and resetting tokens comes to reading the bindings as lexical scopes: at every message and every call each of the six fields is the one given by the latest binding in scope that gives it |
| CallContext.InsideWith | backend/app/core/ai_usage_hooks.py:95-103 | inside a nested context every field it gives is the one in force and every other is as outside; afterwards all are as before |
| CallContext.CarriesTheInnermost | backend/app/core/celery_signals.py:51-68 | a task carries the latest work unit bound in scope where it was enqueued, otherwise what its sender carries; a header of its own it keeps |
| CallContext.OriginIsCarried | backend/app/core/celery_signals.py:51-68 | every task of a chain carries its originating request's work unit if and only if no task of the chain sends a message in the scope of another one, whatever other chains in the queue do; binding the same unit again is not another |
| CallContext.KeepsIsInherited | backend/app/core/celery_signals.py:51-57 | a body, read lexically, keeps a unit if and only if every message it sends carries that unit and so does all the message leads to |
| CallContext.RebindingKeeps | backend/app/modules/recruitment/tasks/analysis.py:194-200 | a task that binds and then enqueues keeps its unit if and only if the binding leaves that unit in force, and a bind of the inherited unit or a default always does |
| CallContext.FinishedBindingIsNoBinding | backend/app/core/ai_usage_hooks.py:95-103 | a nested context that has ended binds nothing for what is enqueued after it, whatever unit it named |
| CallContext.RequestStartsChain | backend/app/core/celery_signals.py:51-57 | what a billed request enqueues inside its call context inherits its unit, if the body keeps it, and belongs to its chain |
| Proxy.Follow | frontend/src/proxy.ts:281-414 | following the redirects from any request, with any cookies and host, ends after at most three |
| Proxy.RedirectLowersRank | frontend/src/proxy.ts:174-203 | every redirect lowers a measure, unless the app origin is on the check host |
| Proxy.LandsAtOnce | frontend/src/proxy.ts:337-403 | a redirect of the normal routing stays on its host and lands on a page that is served |
| Proxy.EndsUnlessAppIsCheckHost | frontend/src/proxy.ts:192-202 | some request is redirected to itself for ever if and only if the app origin's host is the check host |
| Proxy.ThreeAreReached | frontend/src/proxy.ts:267-331 | a chain of exactly three, from a page of the app opened on the check host with a locale |
| Proxy.NoLangLeft | frontend/src/proxy.ts:270-271 | once consumed no `lang` is left, so it is consumed once |
| ProxyLinks.TokenLinkRouting | frontend/src/proxy.ts:360-395 | a link on the proxy's token lists is served by the normal routing whatever the session |
| ProxyLinks.TokenLinkIsServed | frontend/src/proxy.ts:267-395 | a link on the proxy's token lists ends served at the same path with every parameter but a consumed `lang`, and changes host only to leave the check host |
| ProxyEmails.OnlyReviewIsMissing | backend/app/core/email_templates.py:1265 | of the links the letters carry the proxy's token lists know all but the review link |
| ProxyEmails.EmailedLinkIsServed | frontend/src/proxy.ts:267-403 | on the app host a letter's link is served at its own path with its parameters if and only if it is on the token lists or the browser has a session there, static files aside; otherwise it ends at the login form |
| ProxyEmails.ReviewLinkAsksForLogin | backend/app/core/email_templates.py:1265 | a review link with a locale, opened without a session, ends at the login form |
| ProxyLinks.LocaleArrives | frontend/src/proxy.ts:231-279 | the locale a token link is shown in; it is the link's if and only if no host change came between or the app host shows that locale anyway |
| ProxyEmails.LocaleIsLost | frontend/src/proxy.ts:231-279 | a German invitation on the check host that opens in English on the app host |
| ProxyPages.OffTheCheckHost | frontend/src/proxy.ts:328-414 | off the check host a chain is the consumption of the locale, then one routing decision, whose redirect is the last |
| ProxyPages.AppPagesNeedSession | frontend/src/proxy.ts:397-403 | no page of the app is served to a browser without a session there; which pages those are is `ProxyMap.WhereItEnds` |
| ProxyMap.WhereItEnds | frontend/src/proxy.ts:333-431 | off the check host, where every page ends for every browser, each list written out: itself, the dashboard, the marketing site, or the login form, whose `next` is the destination unless that is the root or leads off the host |
| ProxyMap.StaticFilesPass | frontend/src/proxy.ts:433-435 | the API, static files and images, each named, are served as asked for on every host |
| ProxyMap.WhereItEndsFromTheCheck | frontend/src/proxy.ts:157-203 | where every page opened on the check host ends: the check's short paths in place, crawler files and link previews in place, everything else as it would have on the app host |
| ProxyMap.ShownByCheck | frontend/src/proxy.ts:147-187 | the check host shows exactly `/`, `/gallery`, `/my`, one segment below `/r`, `/gallery`, `/confirm`, `/unsubscribe` or `/my`, and two below `/my`, each under `/check` |
| ProxyMap.CompanyPages | frontend/src/proxy.ts:62-71 | without a session a company's page is served if and only if its name is none of `positions`, `divisions`, `profile`, `specializations`; these end at the login form |
| ProxyPages.AuthPages | frontend/src/proxy.ts:360-375 | a signed-in browser is taken to the dashboard from exactly the auth pages without a token of their own; a demo session gets the form |
| ProxyPages.MarketingLeaves | frontend/src/proxy.ts:351-358 | a chain leaves for the marketing site if and only if the path is a marketing path off its domain, with path and parameters unchanged |
| ProxyPages.LeavesWithinTwo | frontend/src/proxy.ts:267-358 | before leaving for the marketing site a chain consumes a locale and leaves the check host at most, no more |
| ProxyPages.ThroughMarketing | frontend/src/proxy.ts:351-358 | if the marketing domain reaches this proxy, a chain through it ends after at most four and does not leave again |
| ProxyPages.CheckHostServesTheCheck | frontend/src/proxy.ts:163-203 | whatever a chain ends on there, the check host serves check pages and crawler files alone, under their short URLs |
| ProxyPages.CheckLinksKeepTheirUrl | frontend/src/proxy.ts:174-191 | a link of the check opened on the check host shows its page under the very same URL, with every parameter but a consumed `lang` |
| ProxyPages.LettersAreCheckLinks | backend/app/modules/public_check/service.py:664-673 | the confirmation, saved-checks and unsubscription links of the check's letters are such links, for every token |
| ProxyLinks.DestinationReadBack | frontend/src/proxy.ts:420-431 | path and query written into `next` are read back unchanged |
| ProxyLinks.DeepLinkSurvives | frontend/src/proxy.ts:397-431 | without a session a deep link, opened on the check host too, ends at the login form of its app host, whose `next` is that very destination |
| DeleteGuards.Database.DeleteTenantRows | backend/migrations/versions/hrp305_demo_purge_guard_and_user_fk_cascade.py:139-217 | accepted if and only if every row is a demo tenant; then rows and, outside replica mode, their users go, and the cascade is never refused |
| DeleteGuards.Database.DeleteUserRows | backend/migrations/versions/hrp305_demo_purge_guard_and_user_fk_cascade.py:157-192 | accepted if and only if the trigger lets every row go |
| DeleteGuards.Database.Execute | backend/migrations/versions/hrp305_demo_purge_guard_and_user_fk_cascade.py:139-217 | the whole state after any statement, rolled back when a row is refused |
| DeleteGuards.ExecuteAll | backend/migrations/versions/hrp305_demo_purge_guard_and_user_fk_cascade.py:139-217 | executing any run ends in the state the run theorems are about |
| DeleteGuards.RemovedTenantsWereDemo | backend/migrations/versions/hrp305_demo_purge_guard_and_user_fk_cascade.py:141-155 | in every run every removed tenant was a demo tenant at that moment |
| DeleteGuards.OthersStopTheStatement | backend/migrations/versions/hrp305_demo_purge_guard_and_user_fk_cascade.py:146-187 | a statement that would remove another tenant or user changes nothing |
| DeleteGuards.OrdinaryStatementsPass | backend/migrations/versions/hrp305_demo_purge_guard_and_user_fk_cascade.py:139-217 | the guards stop nothing else: inserts, marks and moves with sound references, and deletes of demo tenants and of their users, take effect |
| DeleteGuards.NobodyDangles | backend/migrations/versions/hrp305_demo_purge_guard_and_user_fk_cascade.py:176-181 | if replica mode never refers to a tenant that never was, every user's tenant exists or was removed as a demo tenant |
| DeleteGuards.RemovedUsersBelongedToDemo | backend/migrations/versions/hrp305_demo_purge_guard_and_user_fk_cascade.py:157-192 | under that proviso every removed user belonged to a demo tenant |
| DeleteGuards.RemovalIsRightUnlessDangling | backend/migrations/versions/hrp305_demo_purge_guard_and_user_fk_cascade.py:157-192 | in any run, whatever came before, a user that any statement removes belonged to a demo tenant if and only if the user's tenant was there or had been removed |
| DeleteGuards.GuardFailsOnDangling | backend/migrations/versions/hrp305_demo_purge_guard_and_user_fk_cascade.py:176-181 | deleting a user wrongly gets past the guard if and only if the user's tenant is absent and never was removed |
| DeleteGuards.DanglingUserIsDeleted | backend/migrations/versions/hrp305_demo_purge_guard_and_user_fk_cascade.py:176-181 | a run in which it does |
| DeleteGuards.ReferencesHold | backend/migrations/versions/hrp305_demo_purge_guard_and_user_fk_cascade.py:33-38 | without replica mode every user's tenant exists after every statement |
| ForeignKeySweep.Database.Resolve | backend/migrations/versions/hrp305_demo_purge_guard_and_user_fk_cascade.py:90-127 | some foreign key from the column to users, none only when there is none |
| ForeignKeySweep.Database.Upgrade | backend/migrations/versions/hrp305_demo_purge_guard_and_user_fk_cascade.py:219-262 | succeeds if and only if every listed column has a foreign key; changes those alone and records their names and actions |
| ForeignKeySweep.Database.Downgrade | backend/migrations/versions/hrp305_demo_purge_guard_and_user_fk_cascade.py:265-302 | from any later state gives the recorded constraints their recorded actions and touches no other; fails if and only if there is no snapshot table, a recorded constraint is gone, or an unrecorded column has no foreign key |
| ForeignKeySweep.SnapshotRecalls | backend/migrations/versions/hrp305_demo_purge_guard_and_user_fk_cascade.py:272-287 | the snapshot gives back each constraint's own name and prior action |
| ForeignKeySweep.SweepBack | backend/migrations/versions/hrp305_demo_purge_guard_and_user_fk_cascade.py:254-296 | sweeping the same constraints with their prior actions undoes the first sweep |
| ForeignKeySweep.UpgradeThenDowngrade | backend/migrations/versions/hrp305_demo_purge_guard_and_user_fk_cascade.py:219-302 | downgrade after upgrade gives back every foreign key as it was |
| ForeignKeySweep.UserKeysThereAndBack | backend/migrations/versions/hrp305_demo_purge_guard_and_user_fk_cascade.py:66-81 | so on the migration's own fourteen columns, which differ |
| TemplateLocale.Database.Upgrade | backend/migrations/versions/hrp478emaildb01_notification_template_locale.py:34-62 | every template becomes English and every code gets one German copy; keys and references hold |
| TemplateLocale.Database.Seed | backend/migrations/versions/hrp478emaildb01_notification_template_locale.py:50-62 | a German copy for exactly the English codes without one, and the unique key holds |
| TemplateLocale.Database.Downgrade | backend/migrations/versions/hrp478emaildb01_notification_template_locale.py:65-95 | succeeds if and only if each code without an English row has one row; otherwise changes nothing |
| TemplateLocale.KeyHolds | backend/migrations/versions/hrp478emaildb01_notification_template_locale.py:79-94 | the code-only key holds of the rows that are left if and only if each code without an English row has one row |
| TemplateLocale.TwoRowsWithoutEnglish | backend/migrations/versions/hrp478emaildb01_notification_template_locale.py:79-94 | a table of two such rows, for which the key does not hold |
| TemplateLocale.KeepsReferences | backend/migrations/versions/hrp478emaildb01_notification_template_locale.py:66-86 | every notification then refers to an existing template of the same code |
| TemplateLocale.DowngradeUndoesUpgrade | backend/migrations/versions/hrp478emaildb01_notification_template_locale.py:34-95 | downgrade after upgrade gives back the original templates, ids included, and moves no notification |
| TemplateLocale.SeedingTwice | backend/migrations/versions/hrp478emaildb01_notification_template_locale.py:47-49 | seeding again adds nothing |
| RoleReconcile.Database.ManagerRole | backend/scripts/emp3_role_consistency.py:52-58 | the system manager role, none only when there is none |
| RoleReconcile.Database.HeadsOf | backend/scripts/emp3_role_consistency.py:66-88 | exactly the users whose employee record manages or deputises a division of the tenant |
| RoleReconcile.Database.Visit | backend/scripts/emp3_role_consistency.py:90-111 | one user: table and counters stay those of the specification, and the insert meets no existing row |
| RoleReconcile.Database.Reconcile | backend/scripts/emp3_role_consistency.py:46-120 | the exact table and the three counters of any run, dry or not; no insert ever fails |
| RoleReconcile.EveryHeadIsRanked | backend/scripts/emp3_role_consistency.py:3-8 | afterwards every head with an employee record is a manager or higher |
| RoleReconcile.WhoIsUpgraded | backend/scripts/emp3_role_consistency.py:33-111 | a user gets a row if and only if they head a division and hold none of `manager`, `admin`, `hr`, `platform_admin`; the heads counted as skipped are those holding one of the last three |
| RoleReconcile.OnlyManagerIsAdded | backend/scripts/emp3_role_consistency.py:90-111 | the only change to any user is an added manager role for unranked heads; no row is lost and each upgrade adds one |
| RoleReconcile.SecondRunChangesNothing | backend/scripts/emp3_role_consistency.py:10 | a second run upgrades nobody and changes nothing |
| RoleReconcile.DryRunAnnounces | backend/scripts/emp3_role_consistency.py:98-111 | from one table, a dry run announces as many upgrades as the real run makes if and only if no unranked user leads divisions in two tenants, otherwise more |
| RoleReconcile.LeaderOfTwoTenants | backend/scripts/emp3_role_consistency.py:84-111 | an employee who leads in two tenants is announced twice and upgraded once |

## Left out

- Redis, Celery, SQL, S3, mail and HTTP calls: only the state they hold is modelled (an entry with an expiry, a FIFO log, signal order, tables as maps and sequences).
- Redis in the fan-out: pub/sub is FIFO, ids hold no colon, and a socket is registered for one user at a time; connection loss and the listener's restart are not modelled.
- Floating-point rounding in the recompute: numbers are exact, so a tie of the exact value is a tie of the model.
- Recompute.LevelResult: the top weight is not zero, because with a zero top weight the program divides by zero; `RecomputeOne` covers that case.
- RecomputeTheorems.RaisingAnAnswerNeverLowers: asks for a positive top weight and non-negative indicator weights, without which a heavier answer can weigh less; `RecomputeRaise.DropsBelowTheMark` gives the condition where the answer did not count before.
- RecomputeWeights.TwinsAddUp: asks that neither weight nor their sum is zero, because a zero weight counts as one.
- The recompute's status query and its loop over assessments: each assessment is recomputed by itself.
- `ipaddress` parsing: how text reads as an address or a network is a parameter; a network is a base and a power-of-two size.
- Several X-Forwarded-For header lines: the framework hands over one value.
- LocaleHeader.HeaderIsReadBack: tags and parameters hold no separator and no surrounding space; what other headers are read as is said by `Locale.HeaderChoosesBest` alone.
- Header text beyond Latin-1: stripping and lower-casing are those of the characters an HTTP header can carry.
- The translation catalogues, date formats and validation messages beside the locale chain.
- The bodies of `get_section_overrides` and `section_level`: stored rows become overrides as the company service reads them; the process dynamics of coverage are a parameter.
- SectionMemo.MemoIsTransparent: writes of other sessions and statements on the raw connection are not modelled, because no session event announces them.
- SectionMemo.Session.MatrixLevels: a user id belongs to one tenant, as the memo's key does not name the tenant.
- The gate's route cache, the allowlists and the dependencies that guard single routes.
- Directory, grade and compensation visibility in the access scope: single-branch predicates.
- The rows the enterprise edition writes for AI calls: a call stands for the context in force when it is made.
- Copies of the context variable in concurrent asyncio tasks, and Celery's retries and time limits: a worker process runs one task after the other.
- Prefetch and client-side navigation in the proxy, and its security headers: document requests only.
- Proxy.Follow: works on queries of keys and values; the re-encoding of a rewritten query is not modelled, a redirect relative to the request's URL stays on the request's host, and the app origin is not the check host (`EndsUnlessAppIsCheckHost` says why).
- ProxyLinks.DeepLinkSurvives: asks for an encoded path and query, in which the delimiters stand for nothing else, and for a path that `next` may hold: longer than `/` and not beginning with two slashes or a slash and a backslash. On the check host it asks that the path is not one the check is shown under.
- The marketing site: another application, where a chain of redirects ends; `ThroughMarketing` covers a deployment whose marketing domain reaches this proxy.
- X-Forwarded-Host: the proxy is given one host, the one the browser asked for.
- TRUNCATE, which fires no row trigger, and rows of other tables that a cascade would reach.
- Updates of a foreign key other than its delete action: the sweep's re-creation drops a custom update action or deferrability, which the catalogue here does not record.
- Constraints on several columns at once in the sweep.
- The order in which a query without ORDER BY returns rows: where an assessment has two rows for a competence, the last one read is the one found.
- Timestamps, generated UUIDs and the columns no statement reads: new row ids are merely fresh.
- The remaining modules, migrations and validators: schema declarations, plumbing or single branches that would add easy members.
