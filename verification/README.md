# Joshua, verified in Dafny

Joshua is a personal assistant in three containers: `gateway` hosts the MCP servers, `core` runs the agent and
owns the data volume, and `channels` talks to people. Most of the code is wiring. This project models the parts
that are state machines, schedulers, parsers or moves over a finite store, and proves what they promise over whole
runs and for every input.

`dafny verify dfyconfig.toml` checks the project with Dafny 4.11.

## What is modelled

| files | part of the system |
|---|---|
| `UpstreamState`, `UpstreamSystem`, `UpstreamInvariant`, `UpstreamTheorems`, `UpstreamAnswers`, `UpstreamSessions`, `UpstreamClass` | one upstream of the gateway: a supervisor, any number of forwarded calls, the generation counter, the lock and the wake-up events, the downstream manager and the session registry, as a transition system whose steps run from one `await` to the next |
| `Calendar`, `Cron`, `CronParse` | the Gregorian calendar, the day-skipping cron scan against the minute-by-minute one, the cron parser and the clock phrases |
| `Catalog`, `Reconcile`, `ReconcileServer`, `ReconcileCatalog`, `ReconcileHistory`, `Gateway` | bringing the running instances and the route table in step with the configured servers |
| `Gates` | core's and the gateway's access checks on one validated config |
| `Layout`, `LayoutKeeps`, `LayoutText`, `LayoutTwice`, `LayoutClass`, `FrontMatter` | the migration of an old data volume, and the front matter it writes |
| `RateLimit`, `Guard` | the token bucket and the guard of the channels |
| `Ipv4Text`, `Netblock` | reading hosts as addresses, and the block list of fetched URLs |
| `SplitMessage`, `Ranking`, `TurnFold`, `Sse`, `Turns`, `Voice` | message splitting, chunk ranking, the event fold of a turn, its frames on the wire, turn acceptance, and voice identity |
| `Naming`, `Filing`, `LinkText`, `PageLinks`, `PageLinkRuns`, `PageLinkExample` | naming and filing attachments, and moving linked attachments into the wiki |
| `Text`, `Arithmetic`, `Wrappers` | Python's string helpers, arithmetic and small datatypes that the models share |

Code that updates fields is a class whose methods are proved against a function on values; the lemmas are about that
function. Loops stay loops.

The upstream machine takes one assumption about its environment from the comments of the code: a request whose
session was rejected did not run, and a result means that the request ran (`UpstreamSystem.Possible`).

## Where the code and its documentation part

- `forward` says that a second failure is an unavailable-upstream error. The code hands on a schema error and a plain
  JSON-RPC error of the second send: `UpstreamAnswers.SecondFailureExactly` gives the condition,
  `UpstreamAnswers.SecondFailureCanBeHandedOn` a run. When the second send dies on a closed session, a call that must
  not be repeated is told "try again" although its request may have run: `UpstreamTheorems.ErrorsAreHonest` gives the
  condition, `UpstreamTheorems.TryAgainCanHaveRun` a run.
- Config validation takes any string as the id of a group, and the gateway strips the group header. A group id with
  white space around it is answered with a 400, or taken for another group or for none: `Gates.GatesAgree` and
  `Gates.OpenedServersAreAdmitted` say exactly when the two gates still agree, `Gates.SpacedGroupIsRefused` and
  `Gates.SpacedGroupIsMistaken` are configs on which they do not. An id without such white space, or a blank one,
  misleads no server: `Gates.PlainGroupNeverMisleads`.
- A cron expression for February 29 alone raises around a non-leap century year, because the scan window is 1500
  days: `Cron.LeapDayFiresExactly` gives the condition, `Cron.LeapDayGapWitness` the date.
- `rank_chunks` with a limit of zero returns one chunk: `Ranking.ZeroLimitGivesOne`.
- The migration reads a post with `read_text`, which turns every line ending into a line feed, so a post with
  carriage returns does not always keep its text to the letter: `LayoutText.MovedTextIntact` gives the condition,
  `LayoutText.BareFenceChangesText` a post that gets longer, `LayoutText.ReturnInBlockKeepsText` one that does not.
- `_whatwg_ipv4` reads its parts with `int`, which takes a sign, underscores and a second prefix, so hosts that section
  3.5 of the WHATWG URL Standard refuses are read as addresses: `Ipv4Text.AcceptedExactly` says which accepted hosts are
  spellings of the standard, `Ipv4Text.SignedHostIsRead`, `Ipv4Text.PrefixedHostIsRead` and `Ipv4Text.PlusOneIsRead`
  which are not.
- A turn that met an overloaded core is not run by a retry in the next 900 seconds, because its id is already in the
  cache: `Turns.OverloadedRetryIsDuplicate`, and `Turns.OverloadedMessageIsLost` for a run of any pool.
- Filing an attachment a second time is a no-op exactly when its name took no counter: `Filing.FiledAgain`, and
  `Filing.CounterMovesOn` for a file that moves on.
- A voice device that is called `threads` has the conversation key of the roaming conversation:
  `Voice.SharedConversation`, and `Voice.GuestMeetsRoaming` for a guest who shares a member's conversation.
- The link migration says that it is safe to run again. A second run goes on exactly when the first copied a page that
  itself names an attachment: `PageLinkRuns.SecondRunIdleExactly`, and `PageLinkExample.CopiedPageIsMovedOn` for such a
  page.

## Model

| member | source | states |
|---|---|---|
| UpstreamTheorems.SendsAreSafe | gateway/joshua_gateway/upstream.py:294-338 | in every reachable state a call was sent at most twice, the second time on a newer generation and session, and only after the first was rejected, or closed under a repeatable request |
| UpstreamTheorems.NonRepeatableRunsOnce | gateway/joshua_gateway/upstream.py:55-64 | a call that is not repeatable takes effect at most once, counting sends still in flight, and exactly once when it returns a result |
| UpstreamTheorems.ReturnedMeansRan | gateway/joshua_gateway/upstream.py:308-330 | a returned result is the outcome of the last send, whose request ran |
| UpstreamTheorems.OneInFlight | gateway/joshua_gateway/upstream.py:288-292 | two requests are never in flight at once, across reconnects too |
| UpstreamTheorems.ErrorsAreHonest | gateway/joshua_gateway/upstream.py:313-338 | "may have run" is raised exactly after one send on a closed session; "unavailable" and "try again" mean that nothing ran, unless a second send failed other than by rejection |
| UpstreamTheorems.TryAgainCanHaveRun | gateway/joshua_gateway/upstream.py:326-338 | a whole run in which a non-repeatable call is told to try again although its request ran |
| UpstreamTheorems.RejectedInAnyCase | gateway/joshua_gateway/upstream.py:66-82 | a message that says "session" and one of the five trouble words, in any letter case and order, is a rejected session |
| UpstreamAnswers.SecondFailureExactly | gateway/joshua_gateway/upstream.py:326-338 | in every reachable state, the failure of a second send goes back as it is exactly when it is a schema error or a JSON-RPC error that says nothing of the session; any other is "try again" |
| UpstreamAnswers.FirstFailureExactly | gateway/joshua_gateway/upstream.py:307-325 | the failure of the only send goes back as it is exactly when it says nothing of the session; "may have run" exactly for a closed session under a call that is not repeatable; the other calls found no new session in time |
| UpstreamAnswers.SecondFailureCanBeHandedOn | gateway/joshua_gateway/upstream.py:326-338 | a whole run in which the plain JSON-RPC error of a second send reaches the caller |
| UpstreamAnswers.ReachableFits | gateway/joshua_gateway/upstream.py:294-338 | in every reachable state every ended call has the answer that its last failure calls for |
| UpstreamInvariant.ReachableKeeps | gateway/joshua_gateway/upstream.py:396-534 | every state that any interleaving reaches keeps the invariant on the shared fields, the lock and every suspended call |
| UpstreamInvariant.StepKeeps | gateway/joshua_gateway/upstream.py:233-338 | each step of a call, of the supervisor or of the control surface keeps that invariant |
| UpstreamInvariant.SuperviseShared | gateway/joshua_gateway/upstream.py:396-442 | no supervisor step breaks the shared fields or takes back a generation, a session or a wake-up |
| UpstreamInvariant.ControlShared | gateway/joshua_gateway/upstream.py:160-235 | the same for reload, disable, stop and broken-session notices |
| UpstreamInvariant.ResumedCall | gateway/joshua_gateway/upstream.py:309-338 | however a request ends, its call goes on in a sound phase |
| UpstreamSessions.LiveSessionIsClean | gateway/joshua_gateway/upstream.py:509-525 | a live session means connected, no reconnect pending, no error, a manager and not idle; reconnects never exceed the generation and stay below it while a session lives |
| UpstreamSessions.NoLostWakeup | gateway/joshua_gateway/upstream.py:258-286 | a waiting call was already woken, or waits for a reconnect that the supervisor works on or is about to be told of |
| UpstreamSessions.PendingReconnectCanMove | gateway/joshua_gateway/upstream.py:396-442 | while a reconnect is pending the supervisor can always take its next step |
| UpstreamSessions.PendingReconnectSettles | gateway/joshua_gateway/upstream.py:396-534 | a reconnect stays pending for at most eight supervisor steps, whatever everybody else does |
| UpstreamSessions.EqualCapsKeepManagerAndBindings | gateway/joshua_gateway/upstream.py:444-478 | connects with equal capabilities keep the same downstream manager and every binding, over any run |
| UpstreamSessions.OtherServersKeepBindings | gateway/joshua_gateway/observability.py:179-183 | no run of one upstream touches the bindings of another server |
| UpstreamSessions.SessionServesOnePerson | gateway/joshua_gateway/observability.py:155-173 | while a session stays bound, a request passes exactly when it names the bound person and conversation or none |
| UpstreamSessions.ConflictEndsSession | gateway/joshua_gateway/routes.py:136-149 | a conflicting request drops its own binding and no other |
| UpstreamSessions.DroppedSessionNeverReturns | gateway/joshua_gateway/upstream.py:253-286 | after a drop, a later live session has a newer generation and a newer session object |
| UpstreamClass.Upstream.Reconnect | gateway/joshua_gateway/upstream.py:237-251 | the fields after it: one reconnect is counted and started, and only for the live generation |
| UpstreamClass.Upstream.Reload | gateway/joshua_gateway/upstream.py:222-231 | the fields after the reload request |
| UpstreamClass.Upstream.Disable | gateway/joshua_gateway/upstream.py:160-170 | the fields after the request to turn the instance off |
| UpstreamClass.Upstream.WaitSession | gateway/joshua_gateway/upstream.py:263-286 | one pass of the wait: go on, sleep on the current event, or fail, as the machine's step has it |
| UpstreamClass.Upstream.FirstSendEnded | gateway/joshua_gateway/upstream.py:309-325 | the fields and the verdict after the first send, as the machine's step has them |
| UpstreamClass.Upstream.SecondSendEnded | gateway/joshua_gateway/upstream.py:327-338 | the fields and the verdict after the second send |
| UpstreamClass.Upstream.LoopHead | gateway/joshua_gateway/upstream.py:398-419 | the head of the supervisor loop takes the machine's step |
| UpstreamClass.Upstream.ServeSession | gateway/joshua_gateway/upstream.py:510-516 | the fields when a session goes live |
| UpstreamClass.Upstream.ReleaseSession | gateway/joshua_gateway/upstream.py:522-524 | the fields when a session is given up |
| UpstreamClass.Upstream.ConnectFailed | gateway/joshua_gateway/upstream.py:424-428 | the fields after a failed connect |
| UpstreamClass.Upstream.Stop | gateway/joshua_gateway/upstream.py:177-179 | the fields after the request to stop |
| UpstreamClass.SessionRegistry.Check | gateway/joshua_gateway/observability.py:155-173 | the conflict that `CheckBinding` names; a new key is bound and an existing binding is never rewritten |
| UpstreamClass.SessionRegistry.Admit | gateway/joshua_gateway/routes.py:136-149 | check, and close on a conflict: the bindings after one request |
| UpstreamClass.SessionRegistry.ClearServer | gateway/joshua_gateway/observability.py:179-183 | the loop removes exactly the keys of one server |
| Calendar.OrdinalDateOf | core/joshua_core/engine/cron.py:102-134 | the day-by-day calendar and the closed-form day number agree |
| Calendar.DateOfOrdinal | core/joshua_core/engine/cron.py:102-134 | every valid date is the date of its day number |
| Calendar.LeapDayWithinFourYears | core/joshua_core/engine/cron.py:16-21 | where the four-year rule holds, February 29 comes within 1461 days |
| Cron.ComputeNextCron | core/joshua_core/engine/cron.py:116-138 | the day-skipping loop returns what the minute-by-minute scan returns |
| Cron.NextCronIsLeast | core/joshua_core/engine/cron.py:116-138 | the result is the least firing minute strictly after the reference; none exactly when no minute of the closed 1500-day window fires |
| Cron.SatisfiableFires | core/joshua_core/engine/cron.py:16-21 | every expression whose day fields can be met fires within the window, unless it is February 29 alone near a non-leap century year |
| Cron.UnsatisfiableNeverFires | core/joshua_core/engine/cron.py:102-134 | an expression whose day fields no date meets never fires |
| Cron.LeapDayFiresExactly | core/joshua_core/engine/cron.py:16-21 | an expression for February 29 alone fires exactly when the window holds an allowed minute of a February 29 |
| Cron.CenturyGapNeverFires | core/joshua_core/engine/cron.py:16-21 | in the 1420 days after the last February 29 before the gap it never fires |
| Cron.LeapDayGapWitness | core/joshua_core/engine/cron.py:116-138 | `0 0 29 2 *` has no fire time when asked on 2096-03-01 |
| CronParse.ParseField | core/joshua_core/engine/cron.py:62-86 | the filling loop returns the union of the parts, or fails with the first bad one |
| CronParse.FieldInRange | core/joshua_core/engine/cron.py:62-86 | a parsed field is not empty and stays within its range |
| CronParse.FieldMembers | core/joshua_core/engine/cron.py:62-86 | a value is in the field exactly when some part's range steps onto it |
| CronParse.FieldRoundTrip | core/joshua_core/engine/cron.py:62-86 | any list of allowed values, printed with commas, parses back to that set |
| CronParse.ParsedExpressionFires | core/joshua_core/engine/cron.py:88-138 | from text to fire time: a parsed, satisfiable expression outside the leap-day case always has one |
| CronParse.FromClock | core/joshua_core/engine/cron.py:178-193 | the minute a clock phrase names |
| CronParse.ClockIsDailyCron | core/joshua_core/engine/cron.py:178-193 | a bare clock phrase gives the minute that the parsed daily expression for that time gives |
| CronParse.TwelveHourClock | core/joshua_core/engine/cron.py:178-188 | the 12-hour clock, and exactly which hours a pm phrase may name |
| Catalog.Merge | gateway/joshua_gateway/catalog.py:230-242 | the key-by-key merge computes the merged config |
| Catalog.MergeKeepsCredentials | gateway/joshua_gateway/catalog.py:230-242 | an identity's own entry wins and every other entry of the server stays |
| Catalog.InstanceNameInjective | gateway/joshua_gateway/catalog.py:221-227 | names without colons never give one instance name for two servers or two people |
| Catalog.InstanceSpecs | gateway/joshua_gateway/catalog.py:245-258 | the wanted instances: one shared, or exactly one for each identity, never both |
| Gateway.Gateway.ReconcileServer | gateway/joshua_gateway/main.py:147-221 | from any coherent state one server ends with exactly the wanted instances and specs, its one right route, and every other server untouched |
| Gateway.Gateway.ReconcileCatalog | gateway/joshua_gateway/main.py:115-144 | the specs are those of the new config even for an unknown target, which leaves instances and routes alone; a full run reconciles every configured and every running server once, in some order |
| Gateway.Gateway.RunInstances | gateway/joshua_gateway/main.py:180-213 | the loop over the persons starts, stops, reloads and keeps what it should |
| Gateway.Gateway.NewInstances | gateway/joshua_gateway/main.py:59-73 | every wanted instance of one server is registered under its name, and none is started |
| Gateway.Gateway.InstallCatalog | gateway/joshua_gateway/main.py:100-112 | the boot loop registers, routes and starts every wanted instance, and leaves the running instances and routes that the config wants |
| ReconcileServer.ServerSettled | gateway/joshua_gateway/main.py:147-221 | the four parts of one reconcile add up to a coherent state in which the server is done |
| ReconcileCatalog.FullReconcileMatches | gateway/joshua_gateway/main.py:115-144 | after a full reconcile the running instances are exactly the wanted ones with their specs, and each server has one route of the right kind, bound to the live instance when plain |
| ReconcileCatalog.UnchangedKeepsSession | gateway/joshua_gateway/upstream.py:151-158 | an instance without a connect, transport or filter change keeps its object and gets no reload |
| ReconcileCatalog.SecondReconcileIdle | gateway/joshua_gateway/main.py:115-144 | reconciling a matching state again changes nothing at all |
| ReconcileHistory.EachServerAsLastReloaded | gateway/joshua_gateway/main.py:100-144 | over any history of a boot and of reloads of one server or of all, with any configs, each server runs exactly the instances, specs and kind of route that the last reload that dealt with it wanted |
| ReconcileHistory.FullReloadMatches | gateway/joshua_gateway/main.py:115-144 | after every reload of all servers in such a history the gateway matches the config of that reload |
| ReconcileCatalog.ReconcileTwice | gateway/joshua_gateway/main.py:115-144 | two full reconciles of one config, in any two orders, end where the first one ended |
| Gates.SamePermission | core/joshua_core/engine/mcp.py:18-28 | on a valid config core's test and the gateway's test on the group it sees agree for a caller, if and only if the caller is not misled: white space around the group id neither hides a group on a server that is open to the person, nor turns it into an admitted one |
| Gates.GatesAgree | gateway/joshua_gateway/routes.py:176-238 | the gateway answers core with a 400 exactly when the group id without its outer white space is not blank and names no group; it admits exactly what core permits, if and only if the caller is not misled; it picks an identity exactly on identity servers |
| Gates.SpacedGroupIsRefused | gateway/joshua_gateway/routes.py:176-238 | a valid config on which core opens a server and the gateway answers 400 |
| Gates.SpacedGroupIsMistaken | gateway/joshua_gateway/routes.py:176-238 | a valid config on which the gateway admits a caller that core does not |
| Gates.KeyExists | gateway/joshua_gateway/catalog.py:82-107 | a permitted request on an identity server always finds an identity |
| Gates.OpenedServersAreAdmitted | core/joshua_core/engine/mcp.py:31-36 | the servers core opens are exactly those that admit the caller, if and only if no configured server is misled |
| Gates.AdmittedInstanceRuns | gateway/joshua_gateway/routes.py:176-238 | the instance that the gateway picks for an admitted caller is running after a reconcile |
| Gates.CatalogNamesAreGood | shared/joshua_shared/config.py:1052-1086 | a valid config gives the colon-free names that reconciliation needs |
| RateLimit.RateLimiter.Allow | channels/joshua_channels/guard.py:106-120 | the bucket and the answer after one message |
| RateLimit.WindowBound | channels/joshua_channels/guard.py:95-120 | in every run and window of w seconds one handle gets at most rate + rate*w/60 messages through |
| RateLimit.TokensInRange | channels/joshua_channels/guard.py:106-120 | tokens stay between zero and the rate |
| RateLimit.SpacedNeverRefused | channels/joshua_channels/guard.py:106-120 | messages at least 60/rate seconds apart are never refused |
| RateLimit.NoLimit | channels/joshua_channels/guard.py:106-110 | a rate of zero or less never refuses, in any run |
| RateLimit.Potential | channels/joshua_channels/guard.py:106-120 | allowed messages plus tokens left never exceed the rate plus what was refilled |
| Guard.Guard.Check | channels/joshua_channels/guard.py:152-187 | the verdict and the new state for one message |
| Guard.AdmittedExactly | channels/joshua_channels/guard.py:152-218 | a message is let in exactly when its sender is on the roster or in an admitting group and within the rate; the verdict names that person or group |
| Guard.StrangersTakeNoTokens | channels/joshua_channels/guard.py:152-187 | a stranger's message uses up nobody's tokens |
| Guard.StatsAreTheHistory | channels/joshua_channels/guard.py:254-290 | over every run the counters are the counts of the refusal history and the ring is its last 200 entries |
| Guard.TruncatedIsCounted | channels/joshua_channels/guard.py:180-187 | the truncation counter counts the messages let in with a cut text |
| Guard.UnconfiguredRing | channels/joshua_channels/guard.py:220-247 | the ring of unconfigured chats holds at most 50, each once, and the one that just wrote |
| Guard.BucketsAreTheHistory | channels/joshua_channels/guard.py:152-187 | the buckets are those of the known senders' messages alone |
| Guard.VerdictsBounded | channels/joshua_channels/guard.py:95-187 | in every history, a stretch of w seconds lets in at most rate + rate*w/60 messages of one handle |
| Guard.VerdictsAreTokens | channels/joshua_channels/guard.py:152-187 | the messages let in since any event are the allowed ones of the bucket's own history |
| FrontMatter.AddFrontMatterKeys | shared/joshua_shared/layout.py:407-425 | the appending method computes `AddKeys` |
| FrontMatter.RenderParse | shared/joshua_shared/layout.py:86-89 | a rendered block parses back into its lines and its rest |
| FrontMatter.ExistingKeysKept | shared/joshua_shared/layout.py:407-425 | every line of an old block is still there, first and in order, and both keys are present |
| FrontMatter.BodyTextKept | shared/joshua_shared/layout.py:407-425 | the text after the front matter is untouched |
| FrontMatter.AddKeysTwice | shared/joshua_shared/layout.py:407-425 | adding keys again, with any values, changes nothing |
| LayoutKeeps.MigrationConserves | shared/joshua_shared/layout.py:543-605 | whatever steps run in whatever order, each blog file and profile is untouched at its source or at exactly one target with what it carries, only unedited templates are written over, and the counters count the moves |
| LayoutKeeps.StepKeeps | shared/joshua_shared/layout.py:428-540 | each step conserves the files in this sense |
| LayoutText.MovedTextIntact | shared/joshua_shared/layout.py:407-468 | a moved post keeps the text after its front matter as `read_text` gives it; to the letter exactly when that text has no carriage return and no bare carriage return stands before three dashes in the block |
| LayoutText.BareFenceChangesText | shared/joshua_shared/layout.py:407-468 | a post whose text grows when it is moved, by a bare carriage return in its block |
| LayoutText.ReturnInBlockKeepsText | shared/joshua_shared/layout.py:407-468 | a post with a carriage return in its block that keeps its text |
| LayoutKeeps.UniversalPlain | shared/joshua_shared/layout.py:466-466 | `read_text` leaves a text alone exactly when it has no carriage return |
| LayoutTwice.RunSettles | shared/joshua_shared/layout.py:543-605 | after a whole run nothing that a second run looks at has anything left to do |
| LayoutTwice.SecondRunIdle | shared/joshua_shared/layout.py:543-605 | a second run leaves the tree as it is and counts nothing but skips |
| LayoutClass.Migration.MigrateToOneWiki | shared/joshua_shared/layout.py:543-605 | the method takes the steps of a whole run, and leaves the tree and the counters that they give |
| LayoutClass.Migration.MigratePersonBlog | shared/joshua_shared/layout.py:428-471 | the loop deals with every listed post and then with the folder, and leaves other people's files alone |
| LayoutClass.Migration.MovePost | shared/joshua_shared/layout.py:433-468 | one post: target, fallback, skip, rewrite or rename, as the step has it |
| LayoutClass.Migration.CarryPost | shared/joshua_shared/layout.py:461-468 | writing and unlinking, or renaming, carries exactly one file |
| LayoutClass.Migration.MigratePersonProfile | shared/joshua_shared/layout.py:487-498 | the profile step |
| LayoutClass.Migration.MigrateSharedProfile | shared/joshua_shared/layout.py:501-512 | the step for the shared profile |
| LayoutClass.Migration.RemoveStaleReadmes | shared/joshua_shared/layout.py:515-520 | the readme step and its count |
| LayoutClass.Migration.MigrateDocsFolder | shared/joshua_shared/layout.py:523-540 | the folder is renamed with everything in it, or removed |
| Ipv4Text.WhatwgIpv4 | shared/joshua_shared/netblock.py:97-113 | the parsing and accumulating loops compute `ReadIpv4` |
| Ipv4Text.SpellingsReadBack | shared/joshua_shared/netblock.py:76-113 | every 32-bit value written as one to four parts in decimal, octal or hex, padded, in any letter case, with or without a final dot, reads back and is recognised as an address |
| Ipv4Text.AcceptedExactly | shared/joshua_shared/netblock.py:76-113 | the hosts that are accepted with a value and whose parts are all plain, digits or `0x` and hex digits, are exactly the spellings of that 32-bit value |
| Ipv4Text.SignedHostIsRead | shared/joshua_shared/netblock.py:76-113 | a host whose first part has a plus sign is read as an address and is no spelling of one |
| Ipv4Text.PrefixedHostIsRead | shared/joshua_shared/netblock.py:76-113 | so is one whose first part is `00o` and octal digits |
| Ipv4Text.PlusOneIsRead | shared/joshua_shared/netblock.py:76-113 | `+1.2` is read as 1.0.0.2 |
| Ipv4Text.PiecesCombine | shared/joshua_shared/netblock.py:107-113 | numbers in range are the pieces of the value they combine to, which fits 32 bits |
| Netblock.CollectEmbedded | shared/joshua_shared/netblock.py:164-177 | the list is the address and the IPv4 address it carries |
| Netblock.NetworkSeesThroughWrappers | shared/joshua_shared/netblock.py:164-209 | an IPv4 network covers the mapped, NAT64, 6to4 and compatible forms of an address exactly when it covers the address |
| Netblock.CoversRange | shared/joshua_shared/netblock.py:206-209 | a network is the run of addresses from its base on |
| Netblock.DomainCoversLabels | shared/joshua_shared/netblock.py:252-259 | a domain entry covers a host exactly when the host's labels end in the domain's labels |
| Netblock.BlockReason | shared/joshua_shared/netblock.py:266-312 | the early-returning loops compute the verdict: the first entry that matches, then the first network that a resolved address is in |
| Netblock.SpellingsShareFate | shared/joshua_shared/netblock.py:266-302 | under a list of networks the verdict on a URL depends on the address its host spells alone, and names the first network that covers it |
| Netblock.WrappersShareFate | shared/joshua_shared/netblock.py:140-302 | under a list of IPv4 networks the verdict on a URL whose host is an IPv6 literal that wraps an address is the one that every spelling of that address has |
| Netblock.DottedReadsBack | shared/joshua_shared/netblock.py:157-158 | the canonical host of an address reads as that address |
| Netblock.EmptyListBlocksNoPlace | shared/joshua_shared/netblock.py:281-297 | an empty list refuses exactly a missing URL, a foreign scheme and an unreadable host |
| Netblock.LongerListsRefuseMore | shared/joshua_shared/netblock.py:299-312 | no entry lifts what another forbids |
| SplitMessage.Split | channels/joshua_channels/adapters/telegram.py:76-100 | the nested loops pack whole lines and hard cuts greedily |
| SplitMessage.PartsAreTheText | channels/joshua_channels/adapters/telegram.py:76-100 | the parts concatenate to the text, each is non-empty and within the limit, and neighbours together exceed it |
| SplitMessage.PartCount | channels/joshua_channels/adapters/telegram.py:76-100 | at most 2*len/(limit+1)+1 parts |
| SplitMessage.FewestParts | channels/joshua_channels/adapters/telegram.py:76-100 | no other grouping of the same lines and cuts within the limit has fewer parts |
| Ranking.RankChunks | core/joshua_core/memory/ranking.py:50-90 | the scoring and greedy loops compute the capped ranking cut to size |
| Ranking.GreedyPass | core/joshua_core/memory/ranking.py:80-90 | the pass with its counts keeps exactly the chunks that come before the cap of their document is used up, up to the limit |
| Ranking.RankedIsSound | core/joshua_core/memory/ranking.py:50-90 | sorted, within the limit, within every document's cap |
| Ranking.RankedClearFloor | core/joshua_core/memory/ranking.py:64-77 | every result clears the raw similarity floor, and its score is the similarity plus the bonus |
| Ranking.RankedFromEligible | core/joshua_core/memory/ranking.py:64-90 | the result is drawn from the eligible chunks, nothing twice |
| Ranking.WhyLeftOut | core/joshua_core/memory/ranking.py:80-90 | a chunk is left out only behind a full cap of its document or a full result |
| Ranking.LargerLimitExtends | core/joshua_core/memory/ranking.py:87-88 | a larger limit only extends the result |
| Ranking.ZeroLimitGivesOne | core/joshua_core/memory/ranking.py:87-88 | a limit of zero or less gives what a limit of one gives |
| Ranking.SortSorts | core/joshua_core/memory/ranking.py:78-78 | the sort orders by score, source, path and index and keeps the elements |
| Ranking.FresherGetsNoLess | core/joshua_core/memory/ranking.py:30-47 | of two chunks of one kind the fresher never gets the smaller bonus |
| Ranking.BonusBounded | core/joshua_core/memory/ranking.py:30-47 | a bonus lies between zero and the configured one, doubled for a recent question |
| TurnFold.Run | core/joshua_core/engine/agent.py:838-948 | the event loop computes the fold and sends what it sends |
| TurnFold.StreamedIsAnswer | core/joshua_core/engine/agent.py:860-918 | what reaches `on_delta` is exactly the deltas, in order, of the messages that did not stop for a tool, or whole messages before the first delta |
| TurnFold.ListeningChangesNothing | core/joshua_core/engine/agent.py:866-870 | a turn without a listener has the same result |
| TurnFold.OkMeansLastResult | core/joshua_core/engine/agent.py:923-927 | a call is ok exactly when results for its id came and the last was no error |
| TurnFold.ToolsUsedOnce | core/joshua_core/engine/agent.py:928-929 | each tool once, exactly the tools called |
| TurnFold.ToolsUsedGrow | core/joshua_core/engine/agent.py:928-929 | in the order of their first calls |
| Sse.IterFrames | channels/joshua_channels/core_client.py:104-120 | the line loop computes the frames |
| Sse.HopKeepsFrames | core/joshua_core/turns.py:268-275 | printed frames parse back to the same frames |
| Sse.TwoHopsKeepFrames | channels/joshua_channels/cli_routes.py:99-101 | printed by core, parsed and printed by channels, parsed by the terminal: the same frames |
| Sse.BrokenStreamKeepsPrefix | core/joshua_core/chat.py:45-61 | a stream that breaks between two lines gives a prefix of the frames, and at most one last frame without its data |
| Turns.SeenCache.CheckAndAdd | core/joshua_core/turns.py:59-65 | the answer and the cache after purge and lookup |
| Turns.SeenCache.Purge | core/joshua_core/turns.py:54-57 | the deleting loop keeps exactly the ids within the window |
| Turns.TurnService.Accept | core/joshua_core/turns.py:184-199 | the stretch before the wait takes the machine's step |
| Turns.TurnService.Resolved | core/joshua_core/turns.py:200-218 | the stretch after it takes the machine's step; the set of background turns stays the set of running posts |
| Turns.TurnService.Discard | core/joshua_core/turns.py:217-217 | the done callback takes the machine's step and keeps the set of background turns that of the running posts |
| Turns.InFlightBounded | core/joshua_core/turns.py:181-182 | in every run the turns in flight never exceed twice the pool |
| Turns.DuplicateExactly | core/joshua_core/turns.py:43-65 | a post is a duplicate exactly when its id was taken within the last 900 seconds |
| Turns.OneTurnPerWindow | core/joshua_core/turns.py:184-218 | two background turns of one id came more than 900 seconds apart |
| Turns.OverloadedMessageIsLost | core/joshua_core/turns.py:184-218 | for every pool a run in which a message meets a full service and its retry is a duplicate, so that no turn runs for it |
| Turns.OverloadedRetryIsDuplicate | core/joshua_core/turns.py:196-212 | a retry of an overloaded post within the window is a duplicate |
| Voice.IdentityHold.Identify | channels/joshua_channels/adapters/voice.py:193-264 | the speaker and the hold after one turn |
| Voice.IdentityHold.Lookup | channels/joshua_channels/adapters/voice.py:101-111 | what is held, and that an expired entry is dropped |
| Voice.IdentityHold.Remember | channels/joshua_channels/adapters/voice.py:94-99 | a hold of no seconds holds nothing |
| Voice.HoldIsHistory | channels/joshua_channels/adapters/voice.py:79-122 | over every run the hold of a device is the person of its last sure turn, while the hold lasts |
| Voice.HeldSpeakerIsLastSure | channels/joshua_channels/adapters/voice.py:193-264 | a turn is held exactly when it is not sure itself and the last sure turn of the device is less than the hold ago; held turns never extend it |
| Voice.UntrustedNameSelectsNobody | channels/joshua_channels/adapters/voice.py:222-235 | replacing an untrusted name by any other, or by none, changes neither the person nor the hold |
| Voice.TrustedNameWins | channels/joshua_channels/adapters/voice.py:222-249 | a trusted name of the roster wins over the default and the hold |
| Voice.SharedConversation | channels/joshua_channels/adapters/voice.py:267-276 | exactly when two turns share a conversation key |
| Voice.GuestMeetsRoaming | channels/joshua_channels/adapters/voice.py:267-276 | a member in one room and a guest on the device `threads` with one conversation key |
| Naming.CountUp | core/joshua_core/attachments.py:76-81 | the counting loop ends in every finite directory, at the first free counter |
| Naming.Pigeonhole | core/joshua_core/attachments.py:76-81 | a directory of n names blocks at most n counters |
| Naming.FreePath | core/joshua_core/attachments.py:62-81 | the name chosen is free, or holds a file that records the same digest |
| Naming.LeastFree | core/joshua_core/attachments.py:76-81 | no free counter is passed over |
| Naming.DedupeName | channels/joshua_channels/attachments.py:226-238 | the loop returns the name itself when it is free, else the one with the first free counter |
| Filing.Store.FileAttachment | core/joshua_core/attachments.py:94-143 | the new path, the metadata and the files after filing |
| Filing.Store.Ingest | channels/joshua_channels/attachments.py:393-402 | an arriving file takes a path that no file has, and every other file stays |
| Filing.FilingKeepsFiles | core/joshua_core/attachments.py:62-143 | filing keeps the set of digests, every other file, and the honesty of the metadata |
| Filing.NoDigestIsLost | core/joshua_core/attachments.py:94-143 | after any run of arrivals and filings the store holds exactly the digests it held before and those that arrived |
| Filing.FiledAgain | core/joshua_core/attachments.py:43-81 | filing again is a no-op exactly when the name took no counter |
| Filing.CounterMovesOn | core/joshua_core/attachments.py:62-143 | a file that takes a counter, and moves on when it is filed again |
| LinkText.RewriteCleans | core/joshua_core/migrate_links.py:39-41 | after the substitution no match of the pattern names an attachment that had a link |
| LinkText.NoNewMatch | core/joshua_core/migrate_links.py:39-41 | a new link never makes the text around it match |
| LinkText.MatchLocal | core/joshua_core/migrate_links.py:39-41 | a match and its path depend on nothing behind it |
| PageLinks.LinkMigration.CopyIntoWiki | core/joshua_core/migrate_links.py:78-106 | the link, the files, the pages and the links made so far after one copy |
| PageLinks.LinkMigration.RewritePage | core/joshua_core/migrate_links.py:134-142 | the left-to-right substitution computes the rewritten page |
| PageLinks.LinkMigration.MigratePageLinks | core/joshua_core/migrate_links.py:109-154 | the loop over the pages computes the run, and counts the pages written and the copies |
| PageLinkRuns.RewriteDoes | core/joshua_core/migrate_links.py:134-142 | a page gets the links of the run, one for every attachment it names that can be copied |
| PageLinkRuns.RunLeaves | core/joshua_core/migrate_links.py:109-154 | after a run every page it went through names nothing that can be copied, or stands as the run just copied it; the other pages are as they were |
| PageLinkRuns.RunKeepsFiles | core/joshua_core/migrate_links.py:78-106 | a run keeps every stored file and the set of digests, and adds files and pages below `wiki/attachments` only, the pages as copies |
| PageLinkRuns.SecondRunIdleExactly | core/joshua_core/migrate_links.py:109-154 | a second run changes nothing, copies nothing and makes no link, exactly when no page that the first one copied into place, and that still stands so, names an attachment that can be copied |
| PageLinkRuns.SecondRunIdle | core/joshua_core/migrate_links.py:109-154 | it is so when no attachment outside the wiki ends in `.md` |
| PageLinkExample.CopiedPageIsMovedOn | core/joshua_core/migrate_links.py:109-154 | a wiki and an attachment on which the second run goes on |
| PageLinks.LinkGood | core/joshua_core/migrate_links.py:104-106 | every new link points below `/attachments/`, cannot be cut short by the page syntax, and ends in `.md` only when the attachment does |

## Left out

- Scheduling: every `await` counts as a point of suspension, so the machine has every interleaving asyncio has, and more. How long a wait lasts is a free choice.
- Package installation of an upstream (`_ensure_installed`) succeeds or fails freely; tool lists, logs and time stamps are not modelled.
- Error texts are kept where a decision reads them; the wording of the others is not.
- `UpstreamClass.Upstream.Reload`: the waits with a time limit in `reload` and `disable` are the caller's; the model has the field updates and the wake-up, not the timeout.
- Cron works in wall-clock minutes from the year 1 on, with a month and day in every year; the year 10000 is not a limit in the model. Time zones, folds and `parse_when`'s ISO form are not part of it.
- `int()` is modelled on ASCII text, with its signs, underscores and prefixes. Digits of other scripts and the limit of 4300 digits are left out, and the white space around a number is what `str.strip` takes.
- White space means the characters below U+0100 that Python counts as such. Lower case is that of ASCII letters, and `\d` in the names of blog posts and `isdigit` on the month folders of an attachment mean the ASCII digits.
- Catalog: the config tables are strings by name. Tool filters are compared, not applied. The outcome records of a reconcile and a stop that raises are not modelled, and one reconcile runs at a time.
- Gates: a header value that HTTP cannot carry, such as one with a line break, counts as carried.
- Bearer matching and the roles of callers are left out of the gates.
- Layout: people are valid ids and blog names that look like dates are real dates; the code raises otherwise. A directory where a page should be, a file where a folder should be, and crashes between two file operations are not modelled. People and posts are visited in any order, which includes the sorted one. An empty folder is known only where a step asks for it. A dated post that is not UTF-8 makes `read_text` raise and is left out. Years have four digits: `%Y` drops the leading zeros of a year below 1000 on Linux, so such a post goes to a folder of another name.
- The guard's clock and the turn clock never run backwards, and their floats are reals.
- Netblock: URL splitting, IDNA, IPv6 literals, network literals, `fnmatch` and DNS are parameters. IPv6 wrappers follow section 2.5.5 of RFC 4291, section 2.1 of RFC 6052 and section 2 of RFC 3056.
- `SplitMessage.Split`: a limit of zero makes the source loop forever on a non-empty line, so the limit is at least one.
- Ranking: `0.5 ** x` is a parameter that never rises and stays between zero and one; scores are reals.
- TurnFold: session ids, usage, cost and tool inputs are carried along by the source and not modelled.
- Sse: JSON is a parameter that round-trips and prints one line. How the transport cuts the bytes into lines is left out.
- Turns: events of kind `event`, the resolution of senders and the delivery of replies are left out.
- Voice: the roster and the settings are fixed during a run. Parsing of the request fields is left out.
- Filing: bytes are represented by their digests. A metadata file is the record of its attachment, so an attachment whose own name ends in `.meta.json` is outside the model, as is a move that fails with an `OSError`.
- Page links: a page or a copy that cannot be written (`OSError`) is not modelled. A page that is no UTF-8 text is skipped, as in the source.
- The call log, the caller registry, readiness reports and the outbox of the terminal channel are left out: rings and counters that one reading settles.
- Two containers that write one folder at the same moment are not modelled; the source relies on the digest in the name there.
- The database-backed stores, the scheduler, the viewer, inference, fleet authentication and `wikigit` are not part of this model.
