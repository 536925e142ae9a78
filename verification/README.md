# A verified model of a multi-tenant SaaS backend

The repository is a NestJS backend whose hard behaviour lies in protocols over three stores: Postgres
rows, Redis keys with a time to live, and at-least-once queues. This project models those protocols in
Dafny and proves what they keep.

Code that updates state in place is a class whose methods are proved against a specification function of
the old state. Where calls overlap, or may stop between two writes, the same commands are the steps of a
state machine, and the theorems are about every run of it. Each theorem below says which of the two it
is about: **whole calls** (one call after the other, each at one instant) or **steps** (any interleaving
of single commands). Failures of the database, Redis, Stripe, the storage provider and the queue are inputs
wherever they change what ends up stored; "Left out" names the results that assume some of them away.

## The parts

- `Foundations`, `RedisKeys`, `Memberships`: shared values, sums over sequences, Redis keys with a deadline,
  and the enumerations of the memberships table.
- `TenantContext`, `TenantIsolation`, `PrismaBusinessService`: the ambient tenant store and the client
  that copies it into transaction-local settings. Steps: tasks, the event loop, pooled connections.
- `UnreadCounters` (whole calls), `UnreadRaces` (steps), `NotificationsService` (the class): unread
  notification counters kept beside the rows they count.
- `Billing`, `BillingWebhooks`, `BillingService`: Stripe deliveries, their fence, handlers, organisation
  rows and snapshots. Whole calls; a delivery may stop before its fence write.
- `RateLimit` (steps), `BruteForce` (whole calls, any command of which may fail), `BruteForceRaces` (steps):
  counters in time windows.
- `Jobs`, `JobsService`: create, publish, roll back, consume. Steps, with crashes at any point.
- `OrgDeletion`, `OrgDeletionService`: the deletion worker, cut off after any step, and the requests.
- `OrgExport`: the export row and its job row, written one after the other. Steps, with crashes.
- `Entitlements`, `RbacCache`, `RbacService`: two read-through caches. Whole calls, with lost Redis commands.
- `Identity`, `IdentityService`: invitations, logins, organisation creation, removal. Whole calls, except
  that linking an account and removing a member may stop between their two writes.
- `SeatLimit`: overlapping membership creations. Steps.
- `Sanitization`: the depth-bounded tree traversals. `Retry`: capped exponential backoff.

## Where the code does less than it says

Where a member is named, it gives the exact condition or a concrete run.

- The webhook's fence row has a foreign key to the organisation named in the event's metadata. When that
  organisation does not exist the fence write fails, and the event is dispatched again on every
  delivery: `BillingWebhooks.RepeatInvisibleIff`, `BillingWebhooks.UnrecordableInvoice`.
- The rollback of a failed publish assumes that nothing was enqueued; a publish that enqueues and then
  reports failure leaves a message without its row: `Jobs.RowLostIff` (a concrete run:
  `Jobs.UnacknowledgedPublishLosesTheRow`).
- Nothing stops a second delivery of a message while the first is at work, and it can write over a DONE row
  whose message is gone: `Jobs.RemovedJobKeepsItsRowIff` (a concrete run: `Jobs.OverlappingDeliveriesUndoDone`).
- Dispatching a subscription event again keeps the rows but not always the published change: the second
  event names the new plan as the old one: `BillingWebhooks.RedispatchPublishesTheSameIff`.
- Linking an invited account is two writes; stopping between them leaves INVITED memberships that no later
  login activates: `Identity.LoginKeepsValidIff`, `Identity.StoppedRelinkStaysInvited`.
- Deleting a folder only deletes objects of COMPLETED file rows and swallows provider failures; the file
  rows go in the same attempt, so what was missed is never deleted: `OrgDeletion.MissedObjectsStayIff`.
- A deletion request marks the organisation before it publishes, so a lost publish can never be asked
  for again: `OrgDeletionService.RequestsAreFinal`. The worker does not look at the scheduled date; it
  deletes when the event arrives. And it reports a failure instead of throwing it, so an organisation whose
  deletion failed half way stays pending and can be neither requested nor scheduled again:
  `OrgDeletionService.HalfDeletedStaysIff`.
- `completeExport` is two updates without a transaction; stopping between them leaves a COMPLETED export
  whose job is never DONE: `OrgExport.TornExactlyAfterHalfACompletion`, `OrgExport.CompletedRowsStayIff`.
- The export worker reads the row inside its try block, so a redelivery that cannot read a finished export
  marks it FAILED: `OrgExport.UnreadableRowFailsTheExportIff`.
- The attempt counter gets its expiry in a command of its own. When that one fails the counter never
  expires and its lifetime has no bound; a lock that cannot be set lets one more failure through:
  `BruteForce.LifeIsBoundedIff`, `BruteForce.UnsetLocksAddUp`.
- Removing a member deletes the membership and then the account; stopping between them leaves an account
  without memberships that no repeated removal cleans up: `Identity.StoppedRemovalOrphansIff`.
- A cached membership status outlives an activation by the rest of its TTL: `RbacCache.ActivationStaleIff`.
- Publishing the DONE update happens inside the try block, so a Redis failure turns a DONE job into a
  FAILED one that is run again: `Jobs.DeliverySettlesIff`.
- `markAllAsRead` drops the user's whole counter, and the next notification recreates it at 1:
  `UnreadCounters.CreateAfterMarkAllUndercounts`.
- An entitlement override that lapses is not invalidated, and with a cache TTL of 0 it never goes:
  `Entitlements.LapsedOverridesLinger`.
- `removeMember` deletes the row before it asks Redis for keys, so a Redis failure keeps the permissions
  of a removed member alive: `RbacCache.RemoveStaleIff`.
- `sanitizeDeep` assigns keys of a plain object, so a `__proto__` property is dropped:
  `Sanitization.SanitisingPreservesStructureIff`.
- The retry loop's comment promises jitter of plus or minus 10 %; the code only adds it.

## Model

| member | source | states |
|---|---|---|
| `TenantContext.NestedScopesBindInnermost` | libs/prisma-business/src/tenant-context.ts:38-94 | in any nesting of the four scope functions, each of the three values is the one bound by the innermost scope that binds it, and the outer value when none does |
| `TenantContext.ScopesRebind` | libs/prisma-business/src/tenant-context.ts:38-94 | what each of the four scope functions binds, value by value, and what it leaves to the scope around it |
| `TenantIsolation.ReadsCapturedStore` | libs/prisma-business/src/prisma-business.service.ts:136-152 | a transaction about to run its query reads exactly the store captured when the query was called, whatever else ran on the connection |
| `TenantIsolation.StepConserves` | libs/prisma-business/src/prisma-business.service.ts:121-156 | every step keeps the multiset of observations made, lost and still owed; none is invented, changed or duplicated |
| `TenantIsolation.QueriesSeeTheirOwnScope` | libs/prisma-business/src/prisma-business.service.ts:121-156 | refinement: for any task programs, connections and interleaving, what queries saw, lost and still owe is exactly what a reader semantics over the programs' own scopes gives |
| `TenantIsolation.SettledRunsAnswerEveryQuery` | libs/prisma-business/src/prisma-business.service.ts:121-156 | a run without failures that comes to rest has answered every query exactly once, with its own scope's values |
| `TenantIsolation.ObservationsShowInnermostBindings` | libs/prisma-business/src/prisma-business.service.ts:121-156 | in any run of any task programs, everything a query saw is a query of the programs with the values bound by the innermost scopes around it, the system-lookup mark as the text `true` or `false` |
| `TenantIsolation.NoLookupUnlessOpened` | libs/prisma-business/src/prisma-business.service.ts:136-152 | in any run of programs that never open a system lookup, every observation was made with the lookup setting `false` |
| `TenantIsolation.IdleConnectionsCarryNothingOver` | libs/prisma-business/src/prisma-business.service.ts:136-152 | after any run, a connection nobody holds shows its original session values: transaction-local settings never carry over |
| `TenantIsolation.LeavingRestoresOuterStore` | libs/prisma-business/src/tenant-context.ts:38-94 | after any activity of any tasks inside a scope, leaving it restores the outer store, statements and scopes |
| `PrismaBusinessService.Client.WrapTenantScopedDelegates` | libs/prisma-business/src/prisma-business.service.ts:121-156 | every delegate but the users' that is an object becomes a proxy, wrapped once; every other property is unchanged |
| `PrismaBusinessService.OnlyUsersAreUnscoped` | libs/prisma-business/src/prisma-business.service.ts:27-42 | the list of scoped models names every model but the users' |
| `PrismaBusinessService.Client.ScopedCall` | libs/prisma-business/src/prisma-business.service.ts:136-152 | a proxied call answers with the organisation, the user and, as the text `true` or `false`, the system-lookup mark of the caller's store (none, none and `false` outside every scope) or, when one of its statements fails, not at all; either way the connection shows afterwards what it showed before |
| `UnreadCounters.ReadAnswers` | libs/notifications/src/application/services/notifications.service.ts:160-197 | a hit answers max(0, unread + drift), a miss answers the unread count and leaves no drift |
| `UnreadCounters.CallDrift` | libs/notifications/src/application/services/notifications.service.ts:66-310 | for every call and every key: a present counter keeps its drift; a counter the call creates starts exact (read) or short by the rows already unread (write) |
| `UnreadCounters.UserDriftConserved` | libs/notifications/src/application/services/notifications.service.ts:66-310 | absent keys counted as 0, create, markAsRead, markManyAsRead and delete leave every user counter's drift unchanged |
| `UnreadCounters.CountersKeepTheirBirthDrift` | libs/notifications/src/application/services/notifications.service.ts:66-310 | over every run of calls and expiries each present user or organisation counter is off by exactly the drift it was born with |
| `UnreadCounters.CreateAfterMarkAllUndercounts` | libs/notifications/src/application/services/notifications.service.ts:276-279 | after markAllAsRead for one organisation and a new notification the user's count reads 1, whatever is unread elsewhere |
| `UnreadCounters.UnreadMeans` | libs/notifications/src/infrastructure/repositories/notifications.repository.ts:61-71 | the two numbers a counter stands for: a user's rows not yet read, and those in one organisation |
| `UnreadCounters.CreateStores` | libs/notifications/src/application/services/notifications.service.ts:66-79 | one unread row is added; exactly the user's number and counter and those for the organisation go up by one, an absent counter starting at 1 |
| `UnreadCounters.MarkAsReadReads` | libs/notifications/src/application/services/notifications.service.ts:204-220 | an own unread row becomes read and exactly its two numbers and counters go down by one; any other id changes nothing |
| `UnreadCounters.MarkManyReads` | libs/notifications/src/application/services/notifications.service.ts:242-256 | exactly the listed rows of the user become read; no row goes and no other changes |
| `UnreadCounters.MarkManyCounts` | libs/notifications/src/application/services/notifications.service.ts:242-256 | the user counter goes down by the number of rows read, the counter of each organisation they belong to is deleted, and no other moves |
| `UnreadCounters.MarkAllReads` | libs/notifications/src/application/services/notifications.service.ts:276-279 | exactly the user's rows in the organisation become read, its number is 0, and exactly the two counters are deleted |
| `UnreadCounters.DeleteRemoves` | libs/notifications/src/application/services/notifications.service.ts:296-310 | an own row goes, every other stays, and exactly its two numbers and counters go down by one if it was unread; any other id changes nothing |
| `UnreadRaces.NextKeepsBalance` | libs/notifications/src/application/services/notifications.service.ts:66-310 | every single command of overlapping calls keeps counter + wasted decrements = unread + decrements owed - increments owed |
| `UnreadRaces.OverlappingCallsBalance` | libs/notifications/src/application/services/notifications.service.ts:66-310 | in every interleaving, calls that stop after any command included, that balance holds; so the counter is exact if and only if what stopped or unfinished calls owe equals the decrements that met no unread row, and once all calls are over it is short by exactly those |
| `UnreadRaces.BulkReadsSubtractEachRowOnce` | libs/notifications/src/application/services/notifications.service.ts:242-256 | overlapping markManyAsRead calls (any id lists) and creations: at every moment counter = unread + decrements owed - increments owed; no row is subtracted by two calls, each row read meanwhile by one, and the counter is exact at the end |
| `UnreadRaces.TwoSingleReadsSubtractTwice` | libs/notifications/src/application/services/notifications.service.ts:204-220 | two overlapping markAsRead calls on one row both subtract: the counter ends at -1 with nothing unread |
| `UnreadRaces.UndisturbedCallIsWhole` | libs/notifications/src/application/services/notifications.service.ts:66-310 | a call of these steps that nobody interrupts ends with the rows and user counters of the whole call |
| `NotificationsService.Service.CreateNotification` | libs/notifications/src/application/services/notifications.service.ts:66-79 | the row is stored unread, and rows and both counters end as the specified call leaves them |
| `NotificationsService.Service.MarkAsRead` | libs/notifications/src/application/services/notifications.service.ts:204-220 | answers true exactly for an own unread row; that row becomes read and both counters drop by one; otherwise nothing changes |
| `NotificationsService.Service.MarkManyAsRead` | libs/notifications/src/application/services/notifications.service.ts:242-256 | exactly the listed own unread rows become read, the user counter drops by their number, and the counter of each organisation they belong to is deleted |
| `NotificationsService.Service.MarkAllAsRead` | libs/notifications/src/application/services/notifications.service.ts:276-279 | all unread rows of the user in the organisation become read and both counters are deleted |
| `NotificationsService.Service.DeleteNotification` | libs/notifications/src/application/services/notifications.service.ts:296-310 | an own row goes, and both counters drop by one exactly when it was unread |
| `NotificationsService.Service.GetUnreadCount` | libs/notifications/src/application/services/notifications.service.ts:160-197 | answers the floored counter or, on a miss, the row count, which it stores |
| `BillingWebhooks.EachEventProcessedOnce` | apps/api/src/app/billing/webhook.controller.ts:133-159 | for any delivery sequence with any repeats and handler failures, organisations, snapshots, fence rows and published events equal those of processing only each event's first delivery, provided the fence row of each first delivery can be written |
| `BillingWebhooks.RepeatInvisibleIff` | apps/api/src/app/billing/webhook.controller.ts:133-159 | a redelivery of a dispatched event, at its own time and with its own failures, changes nothing if and only if the event was recorded, or the redelivery's fence write does not go through and its handler either fails, has nothing to write, or can neither publish nor take a snapshot |
| `BillingWebhooks.UnrecordableInvoice` | prisma/billing.prisma:25-47 | for any organisation with a customer, a paid invoice of it whose metadata names a missing organisation is written by its handler, never recorded, and published again on every delivery |
| `BillingWebhooks.UnrecordableInvoiceExists` | apps/api/src/app/billing/webhook.controller.ts:133-159 | a concrete store and event of that kind |
| `BillingWebhooks.RedispatchKeepsOrgs` | libs/billing/src/application/event-handlers/webhook-dispatcher.service.ts:41-82 | dispatching an event again right after it was dispatched (crash before the fence write) leaves all billing fields as they are |
| `BillingWebhooks.RedispatchPublishesTheSameIff` | libs/billing/src/application/services/subscription.service.ts:66-251 | dispatching a subscription event again publishes the same domain events if and only if it creates the subscription, or it neither changed the plan nor (unless cancelling) brought a lapsed subscription back |
| `BillingWebhooks.HandlerTwice` | libs/billing/src/application/services/subscription.service.ts:148-576 | each handler run again right after it has written writes the same organisation rows, and unique columns stay unique |
| `BillingWebhooks.HandlerTouches` | libs/billing/src/application/services/subscription.service.ts:148-576 | a handler moves a plan only together with a snapshot of that plan for that organisation, and never replaces a customer id |
| `BillingWebhooks.BillingRunsAgree` | libs/billing/src/infrastructure/repositories/billing.repository.ts:176-287 | over every run of deliveries and billing calls: snapshots and published events are append-only, an organisation's plan is its newest snapshot's plan, a customer id once set never changes, and customer lookup keeps finding the same organisation |
| `BillingWebhooks.OneSnapshotPerSync` | libs/billing/src/application/services/subscription.service.ts:115-251 | over every run an organisation gains exactly one snapshot per sync that finds it |
| `BillingWebhooks.PaidInvoiceActivates` | libs/billing/src/application/services/subscription.service.ts:443-510 | the first delivery of a paid invoice sets its organisation's status to ACTIVE and nothing else, and publishes the payment, then the activation, as far as the bus accepts them |
| `BillingWebhooks.FailedInvoiceIsPastDue` | libs/billing/src/application/services/subscription.service.ts:517-576 | the first delivery of a failed invoice sets its organisation's status to PAST_DUE and nothing else, and publishes the failure |
| `BillingWebhooks.CheckoutActivates` | libs/billing/src/application/services/subscription.service.ts:260-363 | a completed checkout makes its organisation ACTIVE, gives it the customer it lacks and the subscription the session names, and nothing else; a customer or subscription another organisation holds refuses it all |
| `BillingWebhooks.Synced` | libs/billing/src/application/services/subscription.service.ts:148-200 | the row a subscription event leaves, field by field: id, status, plan and cancellation as the subscription has them, each period end only when given, customer and storage limit kept |
| `BillingWebhooks.SubscriptionEventSyncs` | libs/billing/src/application/services/subscription.service.ts:115-200 | a subscription event writes that row and appends one snapshot with the subscription's id, plan, status, seats and period, a missing end of it being the present; or, when a unique column refuses the row, neither |
| `BillingWebhooks.SubscriptionEventPublishes` | libs/billing/src/application/services/subscription.service.ts:66-109 | what it publishes: the creation, or the old plan, the new one and the kind of change, and the expiry of a cancelled subscription |
| `BillingWebhooks.NothingToWrite` | libs/billing/src/application/services/subscription.service.ts:260-576 | without a database, a customer, an organisation in the session or a matching row, a delivery writes and publishes nothing |
| `BillingWebhooks.FenceWritten` | apps/api/src/app/billing/webhook.controller.ts:133-159 | a recorded event changes nothing; any other adds exactly its own fence row, with the organisation its metadata names, the payload's hash and the time, when that can be written |
| `BillingWebhooks.EnsureCustomerStores` | libs/billing/src/application/services/billing.service.ts:47-88 | stores a new customer exactly where there is none and no other organisation holds it, and changes nothing else |
| `BillingWebhooks.CancellationMarks` | libs/billing/src/application/services/billing.service.ts:257-298 | sets cancel-at-period-end exactly where there is a subscription and Stripe accepted, and changes nothing else |
| `BillingService.Service.FindOrgByStripeCustomerId` | libs/billing/src/infrastructure/repositories/billing.repository.ts:131-171 | finds the one organisation with that customer, if there is one |
| `BillingService.Service.UpdateOrgBillingData` | libs/billing/src/infrastructure/repositories/billing.repository.ts:176-209 | writes only the named fields of an existing organisation; a missing row or a clash on a unique column changes nothing |
| `BillingService.Service.UpdateOrgAndSnapshotTx` | libs/billing/src/infrastructure/repositories/billing.repository.ts:237-292 | the update and the snapshot are written together or not at all |
| `BillingService.Service.CreateBillingEvent` | libs/billing/src/infrastructure/repositories/billing.repository.ts:360-385 | the fence row is written unless the id is taken, the organisation it names is missing, or the database fails |
| `BillingService.Service.SyncFromStripeSubscription` | libs/billing/src/application/services/subscription.service.ts:148-251 | an organisation found by customer gets the partial update and one snapshot; otherwise nothing is written |
| `BillingService.Service.HandleSubscription` | libs/billing/src/application/services/subscription.service.ts:369-437 | ends in the store the specified dispatch gives, publishes cut short by a failure included |
| `BillingService.Service.HandleCheckoutCompleted` | libs/billing/src/application/services/subscription.service.ts:260-363 | likewise; the customer id is set only where none is |
| `BillingService.Service.HandleInvoice` | libs/billing/src/application/services/subscription.service.ts:443-576 | ends in the store the specified dispatch gives; the organisation with that customer is ACTIVE after a paid invoice and PAST_DUE after a failed one, and no other field or row changes |
| `BillingService.Service.DispatchEvent` | libs/billing/src/application/event-handlers/webhook-dispatcher.service.ts:41-82 | routes each event kind to its handler and swallows its errors |
| `BillingService.Service.HandleWebhook` | apps/api/src/app/billing/webhook.controller.ts:133-163 | fence check, dispatch and fence write give exactly the specified delivery, and success is reported exactly when the event is fenced |
| `BillingService.Service.EnsureStripeCustomer` | libs/billing/src/application/services/billing.service.ts:47-88 | returns the stored customer when there is one and otherwise stores the new one |
| `BillingService.Service.CancelSubscription` | libs/billing/src/application/services/billing.service.ts:257-298 | marks an existing subscription to cancel at period end only after Stripe accepted it |
| `RateLimit.Service.Check` | libs/security/src/services/rate-limit.service.ts:97-123 | the key, the expiry set by the first increment only, the decision, and failing open at each Redis command; a served check's resetAt is the multiple of the window length after now and no later than one window from now |
| `RateLimit.ResetEndsWindow` | libs/security/src/services/rate-limit.service.ts:97-103 | the reset time is a multiple of the window length, after now, and at most one window away |
| `RedisKeys.IncrCounts` | libs/security/src/services/rate-limit.service.ts:104 | INCR counts from 1 without a deadline on a key that is gone, by one on a live one, keeping its deadline, and touches no other key |
| `RedisKeys.ExpireLasts` | libs/security/src/services/rate-limit.service.ts:107-111 | EXPIRE lets a live key live for exactly its seconds and does nothing to a key that is gone |
| `RedisKeys.SetExLasts` | libs/redis/src/services/cache.service.ts:81-90 | SETEX answers its value for exactly its seconds and touches no other key; DEL takes it away |
| `RateLimit.WindowAdmitsTheFirstMax` | libs/security/src/services/rate-limit.service.ts:97-123 | in every interleaving of checks whose increments come less than five seconds after their window, the n increments of a key return 1 to n in order, and a served check is allowed exactly when it is among the first max and is told the end of its window |
| `RateLimit.IncrementContinuesIffAlive` | libs/security/src/services/rate-limit.service.ts:97-123 | an increment continues its window's count if and only if it is the first or its key still lives, and up to five seconds after the window it always does |
| `RateLimit.AnyStretchAdmitsAtMost` | libs/security/src/services/rate-limit.service.ts:97-123 | any k windows' worth of consecutive seconds admits at most (k + 1) times the limit |
| `BruteForce.Service.RecordFailedAttempt` | libs/security/src/services/brute-force.service.ts:84-128 | the counter, its expiry, the lock and the answer are those of the specified call, whichever of its commands throws; it then fails open and keeps what was written |
| `BruteForce.FailureCounted` | libs/security/src/services/brute-force.service.ts:84-128 | a failure no live lock meets counts one more, or 1 with the tracking window as its deadline, and from the last allowed attempt on sets a lock for the lockout |
| `BruteForce.FailureRefused` | libs/security/src/services/brute-force.service.ts:84-101 | a failure a live lock meets changes nothing and is told the limit and the whole seconds left |
| `BruteForce.FailsOpen` | libs/security/src/services/brute-force.service.ts:120-128 | a failing command answers unlocked with zeros and keeps what the commands before it wrote |
| `BruteForce.ResetClears` | libs/security/src/services/brute-force.service.ts:174-185 | a reset removes exactly the identifier's counter and lock |
| `BruteForce.Service.IsLocked` | libs/security/src/services/brute-force.service.ts:131-142 | true exactly when the lock lives and can be read |
| `BruteForce.Service.GetState` | libs/security/src/services/brute-force.service.ts:145-168 | the live counter and whether the lock lives; when locked, the time left that a refused attempt would be told; otherwise one less than the next recorded attempt would count; all clear when Redis fails |
| `BruteForce.Service.ResetAttempts` | libs/security/src/services/brute-force.service.ts:174-185 | removes counter and lock of that identifier and nothing else, or nothing at all when Redis fails |
| `BruteForce.StepKeepsLife` | libs/security/src/services/brute-force.service.ts:84-128 | every call, failing or not, keeps: a counter has a deadline exactly when its EXPIRE worked, and then the locks it set are at least a lockout apart and all fall inside its tracking window |
| `BruteForce.OneLifeIsBounded` | libs/security/src/services/brute-force.service.ts:84-128 | over any run of whole calls with any Redis failures, a counter lifetime whose EXPIRE worked records at most (maxAttempts - 1) + ceil(trackingTtl / lockoutTtl) failures plus one for each lock that could not be set, at most maxAttempts - 1 plus that number of them unlocked |
| `BruteForce.LifeIsBoundedIff` | libs/security/src/services/brute-force.service.ts:103-106 | from any reachable state, a counter lifetime stays within that bound over all later runs without failures if and only if the EXPIRE after its count of 1 worked |
| `BruteForce.UnsetLocksAddUp` | libs/security/src/services/brute-force.service.ts:108-119 | any number of failures whose lock cannot be set all count, at one instant, and all come back unlocked |
| `BruteForceRaces.EveryLockIsJustified` | libs/security/src/services/brute-force.service.ts:84-128 | in every interleaving each lock goes back to an increment that returned at least maxAttempts, really reached since the counter was last created |
| `BruteForceRaces.UndisturbedCallRecords` | libs/security/src/services/brute-force.service.ts:84-128 | a call of these steps that nobody interrupts leaves counter and lock as the whole call does |
| `Jobs.MessagesHaveRows` | apps/api/src/app/tasks/tasks.service.ts:37-75 | over every run with atomic publishes, crashes, failures and overlapping deliveries: a message ever queued has its row, a row is PENDING exactly while attempts is 0, and attempts equals the number of processing transitions |
| `Jobs.RemovedJobsStayDone` | apps/worker-a/src/sqs-consumer.service.ts:120-159 | without overlapping deliveries of a message, it is removed only when its row is DONE, and from then on the job never changes |
| `Jobs.DeliverySettlesIff` | apps/worker-a/src/worker.controller.ts:81-143 | whatever earlier deliveries left, one delivery removes the message if and only if each of its steps works, and otherwise leaves it queued; the row ends FAILED if and only if work, markDone or the DONE publish failed and markFailed worked |
| `Jobs.OrphansStayPending` | apps/api/src/app/tasks/tasks.service.ts:37-75 | a row whose message was never sent and whose creator is gone stays PENDING with no attempt for ever |
| `Jobs.DeliveryIsARun` | apps/worker-a/src/worker.controller.ts:81-143 | the handler taken to its end is a run of the protocol's steps |
| `Jobs.RowLostIff` | apps/api/src/app/tasks/tasks.service.ts:37-75 | over every run from before a job's creation, its message outlives its row if and only if its publish enqueued the message, reported failure, and the rollback then worked |
| `Jobs.RemovedJobKeepsItsRowIff` | apps/worker-a/src/worker.controller.ts:81-143 | overlapping deliveries included, a DONE row whose message is removed stays as it is in every continuation if and only if each delivery of it is over, acknowledging, or announcing a failure already written |
| `Jobs.DifferentJobsCommute` | apps/worker-a/src/sqs-consumer.service.ts:102-104 | steps of different jobs commute, so a batch handled at once ends as in any order |
| `JobsService.JobRepository.Delete` | libs/jobs/src/infrastructure/repositories/job.repository.ts:51-57 | removes the row, or changes nothing when the statement fails; never throws |
| `JobsService.JobRepository.MarkProcessing` | libs/jobs/src/infrastructure/repositories/job.repository.ts:78-88 | PROCESSING with one more attempt, or throws and changes nothing when the row is missing |
| `JobsService.JobRepository.MarkDone` | libs/jobs/src/infrastructure/repositories/job.repository.ts:93-106 | DONE with the attempts kept, or throws and changes nothing |
| `JobsService.JobRepository.MarkFailed` | libs/jobs/src/infrastructure/repositories/job.repository.ts:111-121 | FAILED with the attempts kept, or throws and changes nothing |
| `JobsService.TasksService.CreateHeavyJob` | apps/api/src/app/tasks/tasks.service.ts:37-75 | row and message end as the protocol's create, publish and (on a failed publish) rollback steps leave them; no other message changes |
| `JobsService.WorkerController.HandleHeavyJobCreated` | apps/worker-a/src/worker.controller.ts:81-143 | the row ends as the protocol's delivery leaves it, and the handler returns normally exactly when the delivery is ready to be acknowledged |
| `JobsService.SqsConsumerService.ProcessMessage` | apps/worker-a/src/sqs-consumer.service.ts:120-159 | the message is deleted only after its handler returned; a body that does not parse changes nothing |
| `JobsService.SqsConsumerService.Run` | apps/worker-a/src/sqs-consumer.service.ts:87-111 | processes every message of every answer up to and including the one during which it is told to stop; a receive error costs one poll |
| `JobsService.PollingStops` | apps/worker-a/src/sqs-consumer.service.ts:87-111 | a run that is told to stop has processed exactly the messages received up to then, whatever errors came between |
| `JobsService.EachMessageOnItsOwn` | apps/worker-a/src/sqs-consumer.service.ts:102-104 | in a batch of messages for different jobs each job ends as if its message had been processed alone, and no other job changes |
| `OrgDeletion.DeletionConverges` | libs/org-deletion/src/application/services/org-deletion-worker.service.ts:93-138 | any number of attempts cut off after any step, one of which finishes, end exactly as one undisturbed attempt from the start, provided an attempt that reaches the row deletion failed only where every attempt fails |
| `OrgDeletion.OneAttemptIsWhole` | libs/org-deletion/src/application/services/org-deletion-worker.service.ts:93-138 | an attempt nothing stops makes exactly that world |
| `OrgDeletion.SettledStays` | libs/org-deletion/src/application/services/org-deletion-worker.service.ts:93-112 | once the organisation is DELETED or unknown, no later attempt changes anything |
| `OrgDeletion.FolderEmptiedIff` | libs/org-deletion/src/infrastructure/repositories/org-deletion.repository.ts:107-143 | afterwards the organisation is DELETED and has rows in no table but entitlement overrides and billing events; its folder is empty if and only if every object in it belonged to a COMPLETED file row and its deletion worked, and its cached keys are gone if and only if no deletion of one failed |
| `OrgDeletion.FinishedAttemptLeaves` | libs/org-deletion/src/infrastructure/repositories/org-deletion.repository.ts:107-143 | everything a finished attempt leaves: of the organisation's rows exactly those of entitlement overrides and billing events, no file row, exactly the objects it did not list or failed to delete, exactly the cached keys outside the organisation's prefix or whose command failed, customer and subscription only if their call failed, the status DELETED with its time, and everything else as before |
| `OrgDeletion.MissedObjectsStayIff` | libs/storage/src/application/services/storage.service.ts:348-366 | an object outlives a finished attempt and all later ones if and only if no COMPLETED file row in the organisation's folder named it or its deletion failed |
| `OrgDeletion.OtherOrgsUntouched` | libs/org-deletion/src/infrastructure/repositories/org-deletion.repository.ts:129-143 | every other organisation keeps its row, records, files, objects, cached keys, Stripe customer and subscription |
| `OrgDeletion.FolderNamesOwner` | libs/storage/src/infrastructure/repositories/storage.repository.ts:178-185 | for ids of equal length the folder and cache prefixes select exactly their own organisation |
| `OrgDeletionService.Worker.ExecuteDeletion` | libs/org-deletion/src/application/services/org-deletion-worker.service.ts:70-209 | stored data ends as the attempt cut at the first failing database or listing call; started, completed and failed events as the outcome demands; it throws only when the started or the failed event cannot be published; when nothing but an event fails, the organisation is DELETED and keeps exactly its entitlement overrides and billing events |
| `OrgDeletionService.Worker.DeleteFolder` | libs/storage/src/application/services/storage.service.ts:348-366 | deletes each listed object whose provider call works |
| `OrgDeletionService.Worker.DeleteByPattern` | libs/redis/src/services/cache.service.ts:146-153 | deletes each listed key whose command works |
| `OrgDeletionService.Worker.RevokeExternalResources` | libs/org-deletion/src/application/services/org-deletion-worker.service.ts:269-282 | ends the subscription and deletes the customer, each only when there is one and Stripe accepts |
| `OrgDeletionService.Requests.RequestDeletion` | libs/org-deletion/src/application/services/org-deletion.service.ts:52-144 | not found, refused, or marked with a date now + retention days; the event is published only after the mark |
| `OrgDeletionService.RequestsAreFinal` | libs/org-deletion/src/application/services/org-deletion.service.ts:52-144 | a request gets past the guard if and only if the organisation exists and is neither pending nor deleted; it is then PENDING_DELETION, requested now and due after its own or the default number of days; afterwards every request is refused and the scheduler never selects it, published or not |
| `OrgDeletionService.HalfDeletedStaysIff` | libs/org-deletion/src/application/services/org-deletion-worker.service.ts:70-209 | after an attempt a pending organisation is still pending if and only if a database or listing call failed, and either way no request or schedule picks it up again |
| `OrgDeletionService.Requests.FindOrgsEligibleForDeletion` | libs/org-deletion/src/application/services/org-deletion.service.ts:151-179 | returns, each once, exactly the suspended organisations whose paid period and retention window are over |
| `OrgExport.ExportsRecover` | libs/org-export/src/application/services/org-export-worker.service.ts:51-228 | from any state but COMPLETED, an attempt past its started event that reads the row and runs to its end leaves (COMPLETED, DONE) when it returns and (FAILED, FAILED) when it throws with its failure writes working |
| `OrgExport.AttemptReturnsIff` | libs/org-export/src/application/services/org-export-worker.service.ts:51-228 | an attempt on an export that is not COMPLETED returns normally if and only if all eight calls of its try block work; then the row is COMPLETED with the link this attempt's work produced, the job is DONE, and one more attempt is counted |
| `OrgExport.LinksExpire` | libs/org-export/src/infrastructure/repositories/org-export.repository.ts:100-125 | only a COMPLETED export expires, and nothing but its status changes |
| `OrgExport.TornExactlyAfterHalfACompletion` | libs/org-export/src/infrastructure/repositories/org-export.repository.ts:162-219 | over every history of cut-off attempts and expiries the rows disagree (COMPLETED, not DONE) if and only if the newest write is the first half of a completion, and agree on completion if and only if it is the second half |
| `OrgExport.CompletedRowsStayIff` | libs/org-export/src/application/services/org-export-worker.service.ts:76-94 | over every history the rows of a COMPLETED export, finished or torn, are what they were if and only if no link expired and no redelivery announced its start, failed to read the row, and wrote its failure; so redelivery never repairs torn rows |
| `OrgExport.UnreadableRowFailsTheExportIff` | libs/org-export/src/application/services/org-export-worker.service.ts:76-227 | one redelivery, cut off anywhere, leaves a COMPLETED export alone if and only if it is not of that kind; otherwise the export ends FAILED, and its job too when the second write works |
| `OrgExport.OrgExportRepository.MarkExportProcessing` | libs/org-export/src/infrastructure/repositories/org-export.repository.ts:162-175 | two updates in turn, the second only after the first |
| `OrgExport.OrgExportRepository.CompleteExport` | libs/org-export/src/infrastructure/repositories/org-export.repository.ts:177-200 | likewise for completion |
| `OrgExport.OrgExportRepository.FailExport` | libs/org-export/src/infrastructure/repositories/org-export.repository.ts:202-219 | likewise for failure |
| `OrgExport.OrgExportWorkerService.ExecuteExport` | libs/org-export/src/application/services/org-export-worker.service.ts:51-228 | the rows end as the attempt leaves them, and the call throws exactly when the attempt does |
| `Entitlements.StalenessIsBounded` | libs/feature-flags/src/feature-flags.service.ts:144-189 | from an empty cache, over every run of billing and override changes, invalidations, evictions and Redis failures: an answer is the uncached result of some state of the run less than cacheTtl seconds old |
| `Entitlements.ChangesAreSeenAtOnce` | libs/feature-flags/src/feature-flags.service.ts:251-295 | after setOverride, deleteOverride or an invalidation whose DEL worked, the next answer is the uncached one |
| `Entitlements.PlanShown` | libs/feature-flags/src/feature-flags.service.ts:144-189 | without overrides: the plan is what the price id buys while the status is ACTIVE and free otherwise, with that plan's table, the organisation and its status |
| `Entitlements.PlanTable` | libs/feature-flags/src/feature-flags.service.ts:38-67 | the features, seats and bytes of the three plans |
| `Entitlements.PropertyOf` | libs/feature-flags/src/feature-flags.service.ts:162-184 | a property is its override's value while that is in force and parses, and the plan's otherwise |
| `Entitlements.CacheRead` | libs/feature-flags/src/feature-flags.service.ts:144-149 | a cached answer is used until it expires, and the uncached one is computed otherwise |
| `Entitlements.CacheWritten` | libs/feature-flags/src/feature-flags.service.ts:186-262 | a miss stores the answer under the organisation's key for the TTL, for ever when that is 0; an invalidation drops exactly that key |
| `Entitlements.SetOverrideReplacesItsKey` | libs/feature-flags/src/infrastructure/repositories/entitlement-override.repository.ts:48-69 | setting an override replaces exactly its own property while in force; every other property keeps its value |
| `Entitlements.DeleteOverrideRestoresThePlan` | libs/feature-flags/src/infrastructure/repositories/entitlement-override.repository.ts:71-83 | deleting one gives the plan's value of that property back and changes no other |
| `Entitlements.LapsedOverridesLinger` | libs/feature-flags/src/feature-flags.service.ts:144-189 | an answer cached at any time before an override lapses keeps showing it after the lapse if and only if the TTL is 0 or not yet over |
| `Entitlements.FeatureFlagsService.GetEntitlements` | libs/feature-flags/src/feature-flags.service.ts:144-189 | cache first, then plan plus parsed active overrides in whatever order the rows come, then the cache write |
| `Entitlements.FeatureFlagsService.ParseOverrides` | libs/feature-flags/src/feature-flags.service.ts:162-176 | the patch holds exactly the active overrides that parse |
| `Entitlements.FeatureFlagsService.SetOverride` | libs/feature-flags/src/feature-flags.service.ts:272-286 | the keyed upsert, then the invalidation |
| `Entitlements.FeatureFlagsService.DeleteOverride` | libs/feature-flags/src/feature-flags.service.ts:292-295 | not found without any change, or the row removed and the cache invalidated |
| `RbacCache.AnswersMatchTheDatabase` | libs/rbac/src/services/permission-resolver.service.ts:23-78 | from an empty cache, after any sequence of create, invite, update, activate, remove, resolve, expiry and eviction whose update and removal invalidations work: for any two strings the answer is the role table's permissions for the member's role and that role, or no permission and no role for a pair that is no member |
| `RbacCache.ApplyKeepsAgreed` | apps/api/src/app/memberships/memberships.controller.ts:133-143 | every such call keeps each cached entry tied to an existing membership with its role and that role's permissions, although invitation and activation never invalidate |
| `RbacCache.MembersAfter` | apps/api/src/app/memberships/memberships.controller.ts:133-376 | what each call makes of the memberships, and that no other call changes them |
| `RbacCache.LookupFills` | libs/rbac/src/services/rbac-cache.service.ts:25-35 | a lookup that finds no entry stores role, status and permissions for ten minutes; an unknown pair is not stored |
| `RbacCache.UpdateStaleIff` | apps/api/src/app/memberships/memberships.controller.ts:309-323 | after a role change a live entry answers in the old role if and only if its DEL failed |
| `RbacCache.RemoveStaleIff` | apps/api/src/app/memberships/memberships.controller.ts:368-376 | after a removal a live entry still answers if and only if KEYS or its own DEL failed |
| `RbacCache.ActivationStaleIff` | libs/memberships/src/application/services/memberships.service.ts:119-122 | after an activation the answer for a pair cached while INVITED reads INVITED, at any later time, if and only if its entry is still alive and read; role and permissions are right either way |
| `RbacCache.InvitedStatusLastsTheTtl` | libs/rbac/src/services/rbac-cache.service.ts:29-35 | an entry filled just before keeps the old status for exactly its ten minutes |
| `RbacCache.GlobSelectsTheOrg` | libs/rbac/src/services/rbac-cache.service.ts:55-64 | for UUIDs the organisation's glob matches exactly that organisation's members' keys |
| `RbacCache.KeysIdentifyMembers` | libs/rbac/src/services/rbac-cache.service.ts:21-23 | whatever strings a caller passes, a member's key is produced only by that member's own ids |
| `RbacService.RBACCacheService.InvalidateOrg` | libs/rbac/src/services/rbac-cache.service.ts:55-64 | keeps exactly the entries the glob does not match or whose DEL failed; a failing KEYS throws and keeps all |
| `RbacService.RBACCacheService.Invalidate` | libs/rbac/src/services/rbac-cache.service.ts:37-42 | drops that entry only |
| `RbacService.PermissionResolverService.ResolvePermissions` | libs/rbac/src/services/permission-resolver.service.ts:23-36 | answers and fills the cache as specified; an unknown pair is not cached |
| `RbacService.PermissionResolverService.GetUserRole` | libs/rbac/src/services/permission-resolver.service.ts:65-78 | likewise for the role |
| `RbacService.PermissionResolverService.HasAllPermissions` | libs/rbac/src/services/permission-resolver.service.ts:56-63 | true exactly when every wanted permission is among the resolved ones |
| `RbacService.MembershipsController.Create` | apps/api/src/app/memberships/memberships.controller.ts:133-143 | the membership, then its invalidation; a refused creation invalidates nothing |
| `RbacService.MembershipsController.Update` | apps/api/src/app/memberships/memberships.controller.ts:309-323 | the role, then the invalidation |
| `RbacService.MembershipsController.Delete` | apps/api/src/app/memberships/memberships.controller.ts:368-376 | the removal happens before KEYS is asked, so a failing KEYS, like a removal service that throws after its delete, reports an error for a removal that happened and invalidates nothing |
| `Identity.RunKeepsValid` | libs/memberships/src/application/services/invite-member.service.ts:56-123 | over every run of invitations, logins, organisation creations, direct members, role changes and removals, stopped ones included, with no relink cut in half: addresses and provider accounts stay unique, one membership per user and organisation, every INVITED membership belongs to a pending user |
| `Identity.RunKeepsSchema` | prisma/membership.prisma:36-66 | cut relinks included, the keys stay unique and no membership loses its user or organisation |
| `Identity.LoginKeepsValidIff` | libs/auth0/src/application/services/auth.service.ts:39-146 | a login keeps INVITED members pending if and only if it is not a relink of an invited user that stops between its two writes |
| `Identity.StoppedRelinkStaysInvited` | libs/auth0/src/application/services/auth.service.ts:110-146 | after such a stop the same login never activates the invitations |
| `Identity.SyncTwiceIsOnce` | libs/auth0/src/application/services/auth.service.ts:39-146 | logging in again with the same arguments changes nothing, whatever the identity provider answers the second time |
| `Identity.UsersLeaveWithTheirLastMembership` | libs/memberships/src/application/services/remove-member.service.ts:29-103 | a user disappears only by the removal of that user's last membership, and no other membership goes with it |
| `Identity.InvitationAddsOneIff` | libs/memberships/src/application/services/invite-member.service.ts:56-123 | an invitation succeeds if and only if the organisation exists, a seat is free, the address has no member there and a new pending account can be stored; it then adds exactly one membership in the given role, INVITED exactly for accounts that start with `pending:`, and otherwise changes no membership; only a new address adds a user, and the answer names the reason of a refusal |
| `Identity.DirectMemberAddsOneIff` | libs/memberships/src/application/services/memberships.service.ts:40-70 | a direct member is added, ACTIVE in the given role, if and only if user and organisation exist, the pair is new and the ACTIVE and INVITED members are fewer than the limit; otherwise nothing changes |
| `Identity.FoundersOwn` | libs/organizations/src/infrastructure/repositories/organizations.repository.ts:22-32 | an existing user who creates an organisation becomes its ACTIVE OWNER; nothing else changes |
| `Identity.RoleChanges` | libs/memberships/src/application/services/memberships.service.ts:137-151 | only the role of that organisation's membership changes, or nothing |
| `Identity.LinkingActivatesInvitations` | libs/auth0/src/application/services/auth.service.ts:110-146 | linking an invited user's account activates all and only that user's INVITED memberships and changes no other row |
| `Identity.LoginSyncs` | libs/auth0/src/application/services/auth.service.ts:39-84 | after any login the account belongs to a user with the given address, unless that is a placeholder or another user holds it |
| `Identity.KnownAccountLogin` | libs/auth0/src/application/services/auth.service.ts:60-84 | a login with a known account changes at most that user's address, to a real one nobody else has |
| `Identity.RelinkedAccount` | libs/auth0/src/application/services/auth.service.ts:110-146 | an unknown account whose address has a user who has logged in before replaces that user's account and changes nothing else |
| `Identity.NewAccountIsProvisioned` | libs/users/src/infrastructure/repositories/user.repository.ts:64-85 | an unknown account with an unknown address becomes a user, a new organisation, and its ACTIVE OWNER |
| `Identity.AddressMeans` | libs/auth0/src/application/services/auth.service.ts:86-108 | only an address that ends in `@auth0.placeholder` is replaced, by the provider's when it answers |
| `Identity.RemovalRemovesOne` | libs/memberships/src/application/services/remove-member.service.ts:29-103 | a removal takes away exactly the named membership, and its user if and only if no other membership is left and the call does not stop in between; a membership of another organisation is not found |
| `Identity.StoppedRemovalOrphansIff` | libs/memberships/src/application/services/remove-member.service.ts:43-103 | a removal that stops in between leaves its user without memberships if and only if this was the last one, and repeating it cleans nothing up |
| `Identity.NoClash` | libs/auth0/src/application/services/auth.service.ts:54-58 | an unknown account can always be linked to the user who has its address: the unique columns never refuse it |
| `IdentityService.AuthService.SyncUser` | libs/auth0/src/application/services/auth.service.ts:39-58 | lookup by account, then by resolved address, then provisioning: the specified login |
| `IdentityService.AuthService.HandleExistingUser` | libs/auth0/src/application/services/auth.service.ts:60-84 | only a changed, real address is written, and a clash changes nothing |
| `IdentityService.AuthService.RelinkExistingUser` | libs/auth0/src/application/services/auth.service.ts:110-146 | the account first, then the invitations of a user who was pending |
| `IdentityService.InviteMemberService.Invite` | libs/memberships/src/application/services/invite-member.service.ts:56-123 | unknown organisation, existing member, seat limit, or a membership INVITED exactly for pending users; a pending user created on the way stays even when the invitation is refused |
| `IdentityService.RemoveMemberService.Remove` | libs/memberships/src/application/services/remove-member.service.ts:29-103 | the membership goes, and the user with it exactly when no membership is left and nothing fails in between |
| `IdentityService.MembershipsService.CreateMembership` | libs/memberships/src/application/services/memberships.service.ts:40-70 | seat check, then an insert the unique pair and the foreign keys may refuse |
| `IdentityService.MembershipsService.UpdateMembership` | libs/memberships/src/application/services/memberships.service.ts:137-151 | changes only the role, and only of a membership of that organisation |
| `IdentityService.MembershipsService.DeleteMembership` | libs/memberships/src/application/services/memberships.service.ts:185-199 | removes only a membership of that organisation |
| `IdentityService.Database.ActivateByUserId` | libs/memberships/src/infrastructure/repositories/memberships.repository.ts:33-38 | exactly that user's INVITED memberships become ACTIVE |
| `IdentityService.Database.CountActive` | libs/memberships/src/infrastructure/repositories/memberships.repository.ts:15-22 | counts the ACTIVE and INVITED memberships of the organisation |
| `IdentityService.Database.ProvisionWithPersonalOrg` | libs/users/src/infrastructure/repositories/user.repository.ts:64-85 | user, organisation and OWNER membership together, or nothing |
| `IdentityService.Database.CreateWithOwner` | libs/organizations/src/infrastructure/repositories/organizations.repository.ts:22-32 | organisation and owner's membership together, or nothing |
| `SeatLimit.SeatsAreBounded` | libs/memberships/src/application/services/memberships.service.ts:40-70 | in every interleaving with at most k creations between check and insert, with activations and removals, ACTIVE plus INVITED members and the creations under way never exceed maxSeats + k - 1 |
| `SeatLimit.SequentialCreationsRespectTheLimit` | libs/memberships/src/application/services/memberships.service.ts:40-70 | creations one after the other never exceed maxSeats ACTIVE and INVITED members |
| `SeatLimit.TheBoundIsReached` | libs/memberships/src/application/services/memberships.service.ts:40-70 | for every k and limit there is such a run that ends with exactly maxSeats + k - 1 members |
| `Sanitization.SanitisingPreservesStructureIff` | libs/security/src/middleware/payload-sanitization.middleware.ts:70-141 | keys, shape and everything below depth 10 are kept if and only if no visited object has a `__proto__` property; then the strings are the cleaned strings in order and the operator-key test gives the same answer |
| `Sanitization.CleanedStrings` | libs/security/src/middleware/payload-sanitization.middleware.ts:70-141 | for every tree, the result's strings are the cleaner applied, in order, to the strings of the tree without its `__proto__` properties |
| `Sanitization.CleanedSkeleton` | libs/security/src/middleware/payload-sanitization.middleware.ts:108-141 | for every tree, nothing but string leaves and dropped `__proto__` properties differs |
| `Sanitization.UnchangedIff` | libs/security/src/middleware/payload-sanitization.middleware.ts:108-141 | the result equals the input if and only if no visited object has a `__proto__` property and no visited string changes |
| `Sanitization.StringsSeenIff` | libs/security/src/middleware/payload-sanitization.middleware.ts:70-141 | a string inside n arrays is collected and cleaned if and only if n is at most 10 |
| `Sanitization.KeysSeenIff` | libs/security/src/middleware/payload-sanitization.middleware.ts:86-141 | a key inside n arrays is refused if and only if n is at most 10 and it starts with a dollar sign, and dropped if and only if n is at most 10 and it is `__proto__` |
| `Sanitization.PayloadSanitizationMiddleware.SanitizeDeep` | libs/security/src/middleware/payload-sanitization.middleware.ts:108-141 | builds the specified tree; `changed` is true exactly when the cleaner changes some visited string |
| `Sanitization.PayloadSanitizationMiddleware.HasNoSqlOperatorKey` | libs/security/src/middleware/payload-sanitization.middleware.ts:86-96 | true exactly when some key of a visited object starts with `$` |
| `Sanitization.PayloadSanitizationMiddleware.Use` | libs/security/src/middleware/payload-sanitization.middleware.ts:180-269 | a request passes with its body unless it carries an operator key or a flagged string; the body is replaced exactly when a string changed |
| `Retry.StripeService.WithRetry` | libs/billing/src/infrastructure/stripe/stripe.service.ts:57-94 | at most maxRetries + 1 calls; all but the last failed with a retryable error; the result is the last call's, a success, a non-retryable error or the last allowed; a negative maxRetries makes no call; retryable are lost connections, rate limits and API answers of 500 and above |
| `Retry.DelayRange` | libs/billing/src/infrastructure/stripe/stripe.service.ts:79-81 | the i-th wait is the base doubled i times plus the jitter, at most a tenth of the base, capped at ten seconds |
| `Retry.DelaysNeverDecrease` | libs/billing/src/infrastructure/stripe/stripe.service.ts:79-81 | whatever the jitter, a later wait is never shorter, and none exceeds ten seconds |
| `Retry.TotalSleepIsBounded` | libs/billing/src/infrastructure/stripe/stripe.service.ts:57-94 | n retries sleep at most min(n * 10000, base * (2^n - 1) + n * base / 10) milliseconds in total |

## Left out

- Row-level security policies: the model says which settings a query sees, not which rows the policies then show. Where a query relies on them (files by prefix), the prefix is proved to select one organisation by itself.
- `Identity.LinkingActivatesInvitations`: assumes the activating update reaches the user's rows. The migration puts a policy on memberships that shows rows of the current organisation or the current user and lets only rows of the current organisation be written, and a login has no organisation in its context; for a database role bound by that policy the update may reach no row.
- Activity logs, legal audit, e-mail, metrics and web-socket messages: they do not change the modelled state. Publishing a job update is a step that may fail, because its failure changes the job.
- JWT, HMAC and Stripe signatures, HTTP status codes, DTO validation, configuration parsing and module wiring.
- The regular expressions of the string cleaner and of the SQL check: one uninterpreted function each, taken as pure.
- `OrgDeletion.OtherOrgsUntouched`: assumes stored files lie under their own organisation's folder and ids are UUIDs, as the key generator and the schema make them.
- `BillingWebhooks.EachEventProcessedOnce`: deliveries run one at a time; two first deliveries of one event at once are not fenced by the code and no agreement is claimed for them.
- `BillingService.Service.EnsureStripeCustomer`: two overlapping calls for one organisation are not modelled; `seatLimit`, always null in a snapshot, is omitted.
- Admin services that write plans, customers, roles or statuses directly, and reinstating a suspended membership.
- `UnreadRaces.OverlappingCallsBalance`: follows the user counter only and starts from exact counters without expiry; counter reads that store a count while other calls run are not claimed to agree.
- `RateLimit.AnyStretchAdmitsAtMost`: clocks are shared and never go back, and increments land less than five seconds after their window; checks that failed open are not counted.
- `Entitlements.StalenessIsBounded`: calls run whole, so a cache fill racing an invalidation is not covered; `setEntitlements`, which writes the cache directly, is not used. JSON survives its round trip. With a TTL of 0 or less there is no bound, see `LapsedOverridesLinger`.
- `RbacCache.AnswersMatchTheDatabase`: calls run whole; memberships deleted by the organisation deletion are outside the run. The key matcher knows `*` and `?`; bracket and escape forms do not occur in these patterns. The membership cache notifier has no provider in the repository, so only the controller invalidates.
- `JobsService.SqsConsumerService.Run`: handles the messages of one answer one after the other where the source starts them together; for messages of different jobs the two agree (`EachMessageOnItsOwn`, `Jobs.DifferentJobsCommute`), and interleavings of one job are in `Jobs`. The pause after a receive error is time only.
- `UnreadCounters.CallDrift`, `UnreadCounters.UserDriftConserved`, `UnreadCounters.CountersKeepTheirBirthDrift` and the methods of `NotificationsService.Service`: no Redis command fails after the row was written. What such a failure leaves in the user counter is in `UnreadRaces.OverlappingCallsBalance`; organisation counters with failing commands are not followed.
- `IdentityService.InviteMemberService.Invite`: a stop between the two inserts is not a case of its own; it leaves the pending user, as a refused invitation does.
- `SeatLimit.SeatsAreBounded`: maxSeats stays constant; a plan change or a stale cached limit moves it.
- `OrgExport.OrgExportWorkerService.ExecuteExport`: gathering, zipping and uploading the data is one step that yields a link or fails.
- Creating the export with its job, listing, counting and download endpoints; the Service Bus consumer, which repeats the queue protocol; the cache's `invalidateUser`, which nothing calls.
- Notification paging and delivery, file uploads, checkout and portal sessions, the planning service.
- `Retry.StripeService.WithRetry`: base delay and jitter are whole milliseconds.
- E-mail addresses are lower-cased before they reach the identity model; names and pictures are not modelled.
