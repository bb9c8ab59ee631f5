# Governed gateway, capability search and simulator: a verified model

This project models the parts of the MCP operations platform whose correctness is hardest to see
from the code, and proves what they promise.

* **The governed gateway as a protocol.** `GatewayMachine` is a machine of small steps: a tool call is a
  thread whose steps are the store methods it calls, each atomic because each holds its store's lock;
  rulings on approvals and listings interleave with any number of calls. A run is any list of actions.
  `GatewayTerms` says in terms of the request and the configuration alone whom the gateway lets in and what it
  hands to a tool. `GatewayApprovals` proves what is behind every dispatch and every ruling,
  `GatewayAnswers` what is behind every answer, `GatewayProgress` where each check leads, and
  `GatewayRulings` what a ruling answers; `GatewaySpending`, `GatewayHolding`,
  `GatewayExclusive` and `GatewaySpender` how often and by whom an approval is used; `GatewayKeys`,
  `GatewayLifetime`, `GatewayCompleting`, `GatewayWriteOnce` and `GatewayReplays` what idempotency keys
  guarantee; `GatewayLimits` the rate limits; `GatewayAudit` and `GatewayNoninterference` the audit log and
  the untrusted argument fields. `GatewayRace`, `GatewayReuse` and `GatewayOverwrite` build runs from the
  initial state in which a promise fails. `Gateway` is the gateway object over the four store objects; its
  `CallTool` is proved to do what the machine's thread does, so the theorems about runs cover it.
  `GatewaySequential` covers calls made one after another.
* **The stores, twice.** `Approvals`, `Idempotency` and `RateLimiter` are the in-memory stores
  (`ApprovalEffects`, `ApprovalLifecycle`, `ApprovalListing` and `RateLimiterOrder` prove what they do and keep); `SqlApprovals`,
  `SqlIdempotency` and `SqlRateLimiter` are the table stores, with commit and rollback. The table stores
  are compared with the in-memory ones over whole runs (`SqlIdempotencyRuns`, `SqlAuditTrails`), and the
  gateway over the one with the gateway over the other (`SqlGateway`, `SqlGatewayRuns`).
* **Capability path search.** A lazy-deletion Dijkstra search and a breadth-first search, both with
  own-path pruning, over one frontier invariant (`CapabilityGraph`, `Frontier`, `EdgeOrder`, `PathSearch`);
  `PathTerms` says what is answered in terms of the edges' fields.
* **Two smaller cores.** The greedy sentence chunker (`SentenceChunks`), and the simulator's scenario
  state machine with the telemetry consumer (`Simulator`, `TelemetryConsumer`).

## Assumptions

Times are integers and scores are reals. The authenticator, the permission table, schema validation, the
policy evaluator and the argument digests are arbitrary deterministic functions. The digest that binds an
approval to its request is taken to be injective, so it is modelled by its payload. New approval ids are
fresh. A dispatch returns a result, returns an error result, raises one of the gateway's exceptions, or
lets another exception escape. Clock readings are arbitrary, except where a theorem asks for a clock
that never goes back. What a database decides by itself, which of equally old rows it deletes and the order
of an expiry sweep, is any lawful choice.

## What does not hold

Some promises hold only under a condition. For each there is a run that breaks it and the condition under
which it holds.

* *An approval is used once.* The approval is checked before the dispatch and spent after it, so two calls
  in flight on one approval can both be dispatched, although docs/security.md promises that approval replay
  is blocked. Passing the check opens the way to a second dispatch exactly when another call stands between
  its own check and its own mark (`GatewayHolding.TakingUpAllowsTwiceIff`; a run in `GatewayRace`). At most
  one call is answered ALLOWED in any case. Calls that do not overlap avoid it (`GatewayExclusive`).
* *A key keeps its lifetime.* A call reads the clock when it starts and reserves later, so even on a clock
  that never goes back a key can expire on one call's late reading and be taken by a call with an earlier
  one, less than a lifetime after it was first reserved. It is kept exactly when the second call's reading is
  not the earlier of the two (`GatewayLifetime.LifetimeKeptIff`), and in particular when calls do not overlap
  (`GatewaySequential`). A key evicted from a full store has no lifetime at all.
* *An approval is bound to its actor.* So README.md line 124 and docs/threat-model.md line 58 of the program
  say. The binding is compared with the requester that the record itself names, so a call passes the check
  exactly when the record is approved and about its request, whoever makes it
  (`GatewaySpender.AnyoneSpendsIff`): anyone with the tool's permission may spend it, the approver included
  (a run in `GatewaySpender.ApproverSpends`).
* *A stored response is written once.* If a key expires under a call or is evicted, another call can reserve
  it; each then completes the key, and the last one wins. A fresh reservation opens the way to that exactly
  when an earlier holder of the key still owes it a response
  (`GatewayCompleting.ReservationAllowsOverwriteIff`; runs by either route in `GatewayOverwrite`). In the same
  case, and only then, a later replay may repeat another response than the latest holder's
  (`GatewayReplays.ReservationAllowsAnotherReplayIff`).
* *No window holds more calls than the limit.* Overlapping calls may be checked against the order of their
  clock readings (`GatewayLimits.OverlappingCallsExceed`). The limit holds regardless exactly when it admits
  at most one call or no reading is behind an earlier check's (`RateLimiterOrder.LimitHoldsIff`).
* *Both rate limiters decide alike.* The table limiter deletes other callers' rows by the calling tool's window
  and reading. On a clock that never goes back the two agree exactly when all tools that admit any call share
  a window; as soon as a reading may be behind an earlier check's, only if no tool admits a call at all
  (`SqlRateLimiter.AgreeBehindByIff`).
* *Both idempotency stores decide alike.* The table store rolls an expiry back on a replay or a duplicate,
  the in-memory store does not, so the table may have rows the dictionary has dropped. A reservation is
  answered alike exactly when no such row of its key is live on its reading, which on a clock that never goes
  back none is (`SqlIdempotencyRuns.ReservationAgreesIff`, `TickingRunIsFaithful`; a run with an earlier
  reading in `EarlierReadingParts`). A completion of such a row revives the key in memory and an expired row
  in the table (`SqlIdempotencyRuns.CompletionAgreesIff`). Evictions agree unless timestamps tie at the cut
  (`SqlIdempotency.EvictionDeterminedIff`).
* *Both approval stores leave the same audit trail.* Exactly as long as no approval has expired: the table
  store does not audit expiries (`SqlAuditTrails.TrailsEqualIff`). Over the tables the gateway, besides,
  audits an executed approval as still APPROVED (`SqlGatewayRuns.AuditedStatusDiffers`). What callers are
  answered is the same (`SqlGatewayRuns.GatewaysAgree`).
* *The telemetry of a scenario does not depend on the past.* True of status and score; the alert code of a
  network timeout is hidden by a crash an earlier scenario left behind (`Simulator.CodeIsScenarioCodeIff`).
* *An event is processed once.* Its id is marked processed before anything can fail, so an event that could
  not be evaluated, or was for an unknown device, is never made good: what is published for it is decided by
  its first delivery (`TelemetryConsumer.PublishedIffFirstHandled`; a stream in `CorrectedEventIsSwallowed`).
* *A path flagged policy_compliant is.* The "shortest" strategy ignores the policy and the disabled servers,
  and its answer still carries the flag. The flag is right exactly when the first, in the order of the edges,
  of the walks with the fewest edges is of allowed edges (`PathSearch.ShortestFlagRightIff`).

## Model

| member | source | states |
|---|---|---|
| GatewayApprovals.EveryDispatchIsBacked | services/mcp-gateway/src/mcp_ops_mcp_gateway/service.py:136-268 | In every run and every interleaving, a dispatch is for an authenticated principal and a registered tool that is not in the disabled set, enabled, executable and permitted to the principal's role; the tool is handed the request's arguments without the four claimed fields, the text of the principal's own role and, if it needs approval, the governed-operation token, and these have passed its validation; and if it needs approval, the trace before it holds the creation of a record for this very request (tool, sanitized arguments, workflow and node, absent or not) and, after that, the grant the record names as its own, made strictly before its deadline by a holder of approvals:approve who is no AI agent and not the requester |
| GatewayApprovals.EveryRulingIsBacked | services/mcp-gateway/src/mcp_ops_mcp_gateway/stores.py:281-328 | In every run a record that is approved or executed names the author and the moment of a grant, and a rejected one the author, moment and reason of a rejection, that the trace holds after the request: made before the deadline by a holder of approvals:approve who is no AI agent and not the requester |
| GatewayApprovals.RunInvariant | services/mcp-gateway/src/mcp_ops_mcp_gateway/service.py:136-335 | Every record of every reachable store is accounted for by the trace, and every call about to dispatch an approval-gated tool holds an approved record about its request |
| GatewayApprovals.FittingIsAbout | services/mcp-gateway/src/mcp_ops_mcp_gateway/service.py:394-444 | A record that passes the checks is about the request even where the explicit workflow and node checks are skipped, because the binding digest covers absent values too |
| GatewayApprovals.GrantBacks | services/mcp-gateway/src/mcp_ops_mcp_gateway/stores.py:281-300 | Granting a requested, still pending record before its deadline by somebody with approvals:approve who is no AI agent and not the requester is what makes its approved form accounted for |
| GatewayApprovals.RefusalBacks | services/mcp-gateway/src/mcp_ops_mcp_gateway/stores.py:302-328 | So is rejecting it of its rejected form, by the same people |
| GatewayTerms.AdmissionIff | services/mcp-gateway/src/mcp_ops_mcp_gateway/service.py:150-154 | A request is let in if and only if its caller is authenticated and its tool registered, switched on, executable and permitted; otherwise the error is that of the first of these checks that fails, in this order |
| GatewayTerms.MayIff | services/mcp-gateway/src/mcp_ops_mcp_gateway/stores.py:72-77 | Who may rule on an approval, and who may read approvals |
| GatewayTerms.StripSanitizes | services/mcp-gateway/src/mcp_ops_mcp_gateway/service.py:744-749 | What is left of the arguments is what is in none of the four claimed fields, unchanged, and nothing else |
| GatewayTerms.TrustedRoutes | services/mcp-gateway/src/mcp_ops_mcp_gateway/service.py:446-456 | The routed arguments field by field: the sanitized ones, actor_role, and approval_token only for a tool that needs approval |
| GatewayTerms.TargetIsFirst | services/mcp-gateway/src/mcp_ops_mcp_gateway/service.py:774-789 | The target resource is the value of the first field of the list that holds a string, an integer or a truth value, and none if no field does |
| GatewayAnswers.EveryAnswerIsExplained | services/mcp-gateway/src/mcp_ops_mcp_gateway/service.py:136-268 | In every interleaving the events of a call, in order, tell its answer. ALLOWED: a fresh reservation of its key, its own dispatch of this request that returned the result answered, and, if the tool needs approval, its own mark of that approval as executed. PENDING_APPROVAL: the reservation and the creation of the very record it names, with every field as the request asks. DENIED: the error its own dispatch returned or raised, with the approval marked failed, or approval_denied if somebody had spent the approval meanwhile; or, without a dispatch, the check that failed. No answer: an exception escaped from its own dispatch |
| GatewayAnswers.AllowedIsReturned | services/mcp-gateway/src/mcp_ops_mcp_gateway/service.py:203-252 | So every answer ALLOWED that is no replay repeats what its own dispatch returned, after its own mark where the tool needs approval |
| GatewayAnswers.StepGoesOn | services/mcp-gateway/src/mcp_ops_mcp_gateway/service.py:136-268 | Each step of a call continues this account of its events |
| GatewayAnswers.RequestedIsAskedFor | services/mcp-gateway/src/mcp_ops_mcp_gateway/service.py:165-180 | The record requested is pending, for the caller, the tool, the sanitized arguments, the workflow and the node, from the reading of the clock for the lifetime of approvals, with the digests of just these |
| GatewayAnswers.MarksItsOwn | services/mcp-gateway/src/mcp_ops_mcp_gateway/stores.py:335-387 | A mark is made if and only if the approval is still approved; it records the result or the text of the error under the caller's name and changes no other record |
| GatewayAnswers.AuditLeads | services/mcp-gateway/src/mcp_ops_mcp_gateway/service.py:243-264 | In every run a call stores its answer after the audit if and only if its events begin with a fresh reservation |
| GatewayAnswers.EveryAnswerIsKept | services/mcp-gateway/src/mcp_ops_mcp_gateway/service.py:719-741 | It stores it under its caller's key, as SUCCEEDED if and only if the answer is ok and as PERMANENT_FAILED otherwise, keeps the age of the record, and changes no other key |
| GatewayProgress.LimitLeads | services/mcp-gateway/src/mcp_ops_mcp_gateway/service.py:155-158 | In every run a call that is let in is refused for its rate if the deque of its caller and tool is full, else for its arguments if what the tool would be told is invalid, else goes on to reserve its key |
| GatewayProgress.ReserveLeads | services/mcp-gateway/src/mcp_ops_mcp_gateway/service.py:159-164 | Then a finished operation younger than its lifetime is replayed, an unfinished one is refused as a duplicate, and otherwise the call goes on to the dispatch, to a request for approval, or to the check of the approval it names |
| GatewayProgress.CreateLeads | services/mcp-gateway/src/mcp_ops_mcp_gateway/service.py:165-180 | A request for approval stores the record in the caller's name with one event and one audit record |
| GatewayProgress.LookupLeads | services/mcp-gateway/src/mcp_ops_mcp_gateway/service.py:405 | An approval that is missing is reported as approval_not_found, a lapsed one as expired_approval |
| GatewayProgress.VerifyLeads | services/mcp-gateway/src/mcp_ops_mcp_gateway/service.py:406-444 | And the call goes on to the dispatch if and only if the record is approved and about this request; otherwise malformed_arguments |
| GatewayApprovals.AdvanceKeeps | services/mcp-gateway/src/mcp_ops_mcp_gateway/service.py:136-268 | Each step of a call loses no approval, changes nothing that was requested, and un-approves nothing |
| GatewayApprovals.RuleKeeps | services/mcp-gateway/src/mcp_ops_mcp_gateway/service.py:270-335 | Each step of approve or reject does too |
| GatewaySpending.SpentAtMostOnce | services/mcp-gateway/src/mcp_ops_mcp_gateway/stores.py:335-387 | In every interleaving at most one call moves an approval to EXECUTED or FAILED |
| GatewaySpending.AllowedAtMostOnce | services/mcp-gateway/src/mcp_ops_mcp_gateway/service.py:197-252 | In every interleaving at most one call is answered ALLOWED on an approval, replays aside |
| GatewaySpending.AllowingFrom | services/mcp-gateway/src/mcp_ops_mcp_gateway/service.py:214-252 | A call comes to be answered ALLOWED on an approval only by marking it executed itself |
| GatewaySpending.StepEnds | services/mcp-gateway/src/mcp_ops_mcp_gateway/service.py:197-242 | A step of a call ends exactly the approval its event names; approved records stay approved otherwise |
| GatewayExclusive.DispatchedAtMostOnce | services/mcp-gateway/src/mcp_ops_mcp_gateway/service.py:197-242 | What a caller can do: if each call naming an approval starts only when every earlier call naming it has ended, at most one dispatch on it ends in a result, an error result or a gateway exception, whatever other calls do |
| GatewayExclusive.ExclusiveIsHeldAlone | services/mcp-gateway/src/mcp_ops_mcp_gateway/service.py:197-242 | Then no call passes the check of the approval while another one holds it |
| GatewayHolding.DispatchTwiceIff | services/mcp-gateway/src/mcp_ops_mcp_gateway/service.py:197-226 | From any reachable state, with no further call passing the check of the approval, some continuation brings a second dispatch on it back if and only if two calls stand between check and dispatch, or one does and a dispatch has come back, or two have |
| GatewayHolding.TakingUpAllowsTwiceIff | services/mcp-gateway/src/mcp_ops_mcp_gateway/service.py:394-444 | Passing the check of an approval opens the way to a second dispatch if and only if another call stands between its own check and its own mark |
| GatewayHolding.TakingUpPutsAtRiskIff | services/mcp-gateway/src/mcp_ops_mcp_gateway/service.py:394-444 | The same of the state right after the check |
| GatewayHolding.DispatchedAtMostOnce | services/mcp-gateway/src/mcp_ops_mcp_gateway/service.py:197-242 | In every interleaving in which no call passes the check while another holds the approval, at most one dispatch on it comes back |
| GatewayHolding.RunInvariant | services/mcp-gateway/src/mcp_ops_mcp_gateway/service.py:197-242 | In every interleaving the dispatches on an approval that came back are the spent ones and those about to be marked |
| GatewayHolding.AccountedAfter | services/mcp-gateway/src/mcp_ops_mcp_gateway/service.py:197-226 | Each step keeps that account |
| GatewayRace.TogetherDispatchTwice | services/mcp-gateway/src/mcp_ops_mcp_gateway/service.py:394-444 | From every state in which two calls stand ready on one approval, some schedule dispatches on it twice, since the approval is checked before the dispatch and spent after it |
| GatewayRace.TwoDispatchesAreReachable | services/mcp-gateway/src/mcp_ops_mcp_gateway/service.py:163-226 | A concrete configuration and run, from the initial state, with two dispatches on one approval |
| GatewayRace.ReachesDispatch | services/mcp-gateway/src/mcp_ops_mcp_gateway/service.py:150-205 | Five steps take any ready call past the check of its approval up to its dispatch |
| GatewaySpender.AnyoneSpendsIff | services/mcp-gateway/src/mcp_ops_mcp_gateway/service.py:394-444 | In every reachable state a call at the check of an approval passes it if and only if the record is approved and about the request, whoever makes the call |
| GatewaySpender.FitsIff | services/mcp-gateway/src/mcp_ops_mcp_gateway/service.py:405-443 | The comparisons with the record amount to just that, because the binding is compared with the requester the record itself names |
| GatewaySpender.ApproverSpends | services/mcp-gateway/src/mcp_ops_mcp_gateway/service.py:408-413 | A run, from the initial state, in which the approver spends the approval it granted to another principal |
| GatewayKeys.DispatchesApart | services/mcp-gateway/src/mcp_ops_mcp_gateway/service.py:157-161 | In every interleaving and with any clock readings, two dispatches under one (principal, idempotency key) rest on two reservations of that key; in between the key was evicted, or some reservation expired it, on a reading a lifetime or more after the first |
| GatewayKeys.ReservedAgain | services/mcp-gateway/src/mcp_ops_mcp_gateway/stores.py:126-143 | A key that was not evicted is reserved again only after a reservation has expired it, a lifetime or more after it was reserved |
| GatewayKeys.StandsOrExpired | services/mcp-gateway/src/mcp_ops_mcp_gateway/stores.py:126-143 | A reservation stands until a reservation expires it or an eviction removes it |
| GatewayLifetime.LifetimeKeptIff | services/mcp-gateway/src/mcp_ops_mcp_gateway/service.py:147-161 | Two dispatched calls on a key that expired in between are a lifetime apart by their own readings, in every run, if and only if the second call does not read the clock earlier than the call whose reservation expired the key |
| GatewayLifetime.EarlierReadingReuses | services/mcp-gateway/src/mcp_ops_mcp_gateway/service.py:147-161 | For every earlier reading, a run from the initial state with two dispatches under one key less than a lifetime apart and nothing evicted |
| GatewayLifetime.LaterReadingKeeps | services/mcp-gateway/src/mcp_ops_mcp_gateway/stores.py:126-143 | The other direction, for any such run |
| GatewayReuse.ScheduleShares | services/mcp-gateway/src/mcp_ops_mcp_gateway/stores.py:126-143 | A schedule of three calls that leaves two calls holding one key |
| GatewayReuse.ByExpiry | services/mcp-gateway/src/mcp_ops_mcp_gateway/stores.py:182-188 | It works whenever the third call reads the clock a lifetime after the first |
| GatewayReuse.ByEviction | services/mcp-gateway/src/mcp_ops_mcp_gateway/stores.py:190-193 | It also works within a lifetime if the store has room for one record |
| GatewayKeys.ReplayIsSourced | services/mcp-gateway/src/mcp_ops_mcp_gateway/stores.py:137-139 | In every interleaving a replayed response is one that a call holding the same key returned itself |
| GatewayKeys.ReserveStoresStanding | services/mcp-gateway/src/mcp_ops_mcp_gateway/stores.py:126-143 | A reservation keeps the store in step with the reservations that stand in the trace |
| GatewayWriteOnce.ReplayIsLastAnswer | services/mcp-gateway/src/mcp_ops_mcp_gateway/stores.py:136-140 | If a key is reserved anew only while no call owes it a response, a replay repeats what the latest holder of the key returned, whatever happens to other keys |
| GatewayReplays.ReservationAllowsAnotherReplayIff | services/mcp-gateway/src/mcp_ops_mcp_gateway/stores.py:136-140 | After such a run, and with a positive lifetime, the next fresh reservation of the key lets some continuation, without another fresh one, replay a response that the latest holder did not return if and only if some call still owed the key a response |
| GatewayReplays.OwingReplaysAnother | services/mcp-gateway/src/mcp_ops_mcp_gateway/stores.py:158-180 | The late completion is what is replayed, on any schedule that completes it |
| GatewayReplays.OwnedReplaysLast | services/mcp-gateway/src/mcp_ops_mcp_gateway/stores.py:136-140 | As long as nobody else owes the key a response, every reading of the clock gets the latest holder's response replayed |
| GatewayWriteOnce.OwnedIsSettled | services/mcp-gateway/src/mcp_ops_mcp_gateway/stores.py:126-143 | Such a run meets the weaker condition under which nothing is overwritten |
| GatewayCompleting.OverwriteIff | services/mcp-gateway/src/mcp_ops_mcp_gateway/stores.py:158-180 | From any reachable state, without a further fresh reservation of the key, some continuation completes it over a stored response if and only if two calls owe it a response, or one does and a response is stored |
| GatewayCompleting.ReservationAllowsOverwriteIff | services/mcp-gateway/src/mcp_ops_mcp_gateway/stores.py:126-143 | A fresh reservation, after an expiry or an eviction alike, opens the way to an overwriting if and only if the call goes on to owe a response while another call still owes one |
| GatewayCompleting.ReservationPutsAtRiskIff | services/mcp-gateway/src/mcp_ops_mcp_gateway/stores.py:126-143 | The same of the state right after the reservation |
| GatewayCompleting.NothingOverwritten | services/mcp-gateway/src/mcp_ops_mcp_gateway/stores.py:158-180 | In every interleaving without such a reservation of the key, no completion of it finds a response to overwrite, whatever happens to other keys |
| GatewayOverwrite.LastCompletionWins | services/mcp-gateway/src/mcp_ops_mcp_gateway/stores.py:158-180 | Of two calls completing one key, the one that completes last leaves its response |
| GatewayOverwrite.HoldersOverwrite | services/mcp-gateway/src/mcp_ops_mcp_gateway/stores.py:158-180 | Two calls about to run under one key can both be answered as succeeded, the second answer replacing the first in the store |
| GatewayOverwrite.ExpiredKeyIsOverwritten | services/mcp-gateway/src/mcp_ops_mcp_gateway/service.py:243-250 | A concrete run, from the initial state, in which a stored response is replaced by a different one after its key expired |
| GatewayOverwrite.EvictedKeyIsOverwritten | services/mcp-gateway/src/mcp_ops_mcp_gateway/stores.py:190-193 | Another, within one lifetime, after the key was evicted |
| GatewaySequential.SequentialIsExclusive | services/mcp-gateway/src/mcp_ops_mcp_gateway/service.py:136-268 | Runs in which a call starts only after every earlier call has ended meet the condition on every approval |
| GatewaySequential.SequentialIsOwned | services/mcp-gateway/src/mcp_ops_mcp_gateway/service.py:136-268 | They also meet the condition on every idempotency key |
| GatewaySequential.RunInClock | services/mcp-gateway/src/mcp_ops_mcp_gateway/service.py:147-157 | If besides the calls start on a clock that never goes back, reservations read it in order |
| GatewaySequential.ReservationsApart | services/mcp-gateway/src/mcp_ops_mcp_gateway/stores.py:126-143 | Then two reservations of one key are a lifetime apart unless the key was evicted in between |
| GatewaySequential.DispatchesApart | services/mcp-gateway/src/mcp_ops_mcp_gateway/service.py:157-161 | And so are the reservations behind two dispatches under one key |
| GatewaySequential.DispatchedAtMostOnce | services/mcp-gateway/src/mcp_ops_mcp_gateway/service.py:197-242 | With call_tool atomic, an approval is spent by at most one dispatch that comes back |
| GatewaySequential.NothingOverwritten | services/mcp-gateway/src/mcp_ops_mcp_gateway/service.py:243-264 | With call_tool atomic, a stored response is written once per reservation |
| GatewayLimits.LimiterOfRun | services/mcp-gateway/src/mcp_ops_mcp_gateway/service.py:155 | In every interleaving the limiter of the gateway is what the checks of its calls, in order, make of a limiter on its own |
| GatewayLimits.RefusedIff | services/mcp-gateway/src/mcp_ops_mcp_gateway/service.py:155 | So a call is refused for its rate exactly when that limiter refuses its check |
| GatewayLimits.LetThroughIsAccepted | services/mcp-gateway/src/mcp_ops_mcp_gateway/service.py:155 | In every interleaving the calls that get past the limiter are those whose checks that limiter accepts |
| GatewayLimits.ChecksInOrder | services/mcp-gateway/src/mcp_ops_mcp_gateway/service.py:147-155 | Calls one after another on a clock that never goes back are checked in clock order |
| GatewayLimits.GatewayWindowBound | services/mcp-gateway/src/mcp_ops_mcp_gateway/service.py:155 | Then no window of a tool's limit holds more of a principal's calls that got past the limiter than the limit |
| GatewayLimits.OverlappingCallsExceed | services/mcp-gateway/src/mcp_ops_mcp_gateway/service.py:147-155 | A run in which four calls start in clock order, overlap, and get one more through than the limit |
| GatewayAudit.AuditLength | services/mcp-gateway/src/mcp_ops_mcp_gateway/service.py:493-558 | Once every call has ended, the audit log holds one record per approval event and one per call answered without a replay, on every path |
| GatewayAudit.EveryAnswerIsAudited | services/mcp-gateway/src/mcp_ops_mcp_gateway/service.py:493-558 | In every interleaving, each call answered without a replay has a record that tells its caller and role (anonymous and VIEWER if unknown), correlation id, tool, risk, argument digest, target resource, decision, execution status, the text of the error code if it was denied, and the status of its approval: EXECUTED if it was allowed on one |
| GatewayAudit.AuditingStepTells | services/mcp-gateway/src/mcp_ops_mcp_gateway/service.py:493-558 | Each of the three auditing steps appends exactly one such record, at its own reading of the clock |
| GatewayTerms.CodeTextNames | services/mcp-gateway/src/mcp_ops_mcp_gateway/errors.py:9-62 | The texts of the error codes |
| GatewayAudit.AuditOnlyGrows | services/mcp-gateway/src/mcp_ops_mcp_gateway/stores.py:450-457 | The log of an earlier state of a run is a prefix of the log of a later one |
| GatewayAudit.EveryStepRecords | services/mcp-gateway/src/mcp_ops_mcp_gateway/service.py:493-558 | A step writes its call's record exactly when the call comes to be recorded, beside one record per approval event |
| GatewayNoninterference.UntrustedFieldsDoNotMatter | services/mcp-gateway/src/mcp_ops_mcp_gateway/service.py:744-749 | Two runs whose requests are equal but for the fields actor_role, approval_token, required_permission and risk_level, present or not, make the same decisions, dispatches, approvals and idempotency records, and audit records that differ only in the argument digest |
| GatewayNoninterference.AdvanceSame | services/mcp-gateway/src/mcp_ops_mcp_gateway/service.py:136-268 | Step by step, calls that differ only in those fields stay alike |
| GatewayNoninterference.TargetSame | services/mcp-gateway/src/mcp_ops_mcp_gateway/service.py:774-789 | The target resource in the audit record does not depend on them either |
| GatewayMachine.RunThenFrom | services/mcp-gateway/src/mcp_ops_mcp_gateway/service.py:136-378 | A run may be cut anywhere |
| Gateway.McpGateway.CallTool | services/mcp-gateway/src/mcp_ops_mcp_gateway/service.py:136-268 | call_tool leaves the stores and the answer that stepping its call thread to the end leaves, no answer when a foreign exception escapes; by CallToolIsARun that is a run of the machine, so what it answers is told by GatewayAnswers.EveryAnswerIsExplained |
| Gateway.McpGateway.Admit | services/mcp-gateway/src/mcp_ops_mcp_gateway/service.py:150-154 | Authentication, tool look-up, enabled, executable and permission checks, in that order, before any store is touched |
| Gateway.McpGateway.Reserved | services/mcp-gateway/src/mcp_ops_mcp_gateway/service.py:159-252 | The rest of the call from the reservation on: replay, duplicate, or on with the key held |
| Gateway.McpGateway.AskForApproval | services/mcp-gateway/src/mcp_ops_mcp_gateway/service.py:165-195 | Creates the approval bound to the request, audits, answers PENDING_APPROVAL |
| Gateway.McpGateway.CheckApproval | services/mcp-gateway/src/mcp_ops_mcp_gateway/service.py:394-444 | Looks the approval up live, then compares tool, arguments, digests, workflow, node and status |
| Gateway.McpGateway.SpendApproval | services/mcp-gateway/src/mcp_ops_mcp_gateway/service.py:162-226 | Looks the named approval up, checks it, and goes on to dispatch or fails |
| Gateway.McpGateway.Execute | services/mcp-gateway/src/mcp_ops_mcp_gateway/service.py:197-212 | Marks the key running, then dispatches |
| Gateway.McpGateway.Dispatch | services/mcp-gateway/src/mcp_ops_mcp_gateway/service.py:203-226 | Routes the four outcomes of a dispatch as the call thread does; what is then answered is told by GatewayAnswers.EveryAnswerIsExplained |
| Gateway.McpGateway.FinishExecuted | services/mcp-gateway/src/mcp_ops_mcp_gateway/service.py:217-250 | Marks the approval executed; if that is refused the call fails with the refusal |
| Gateway.McpGateway.FinishFailed | services/mcp-gateway/src/mcp_ops_mcp_gateway/service.py:212-216 | Marks the approval failed; a refusal replaces the original error |
| Gateway.McpGateway.Succeed | services/mcp-gateway/src/mcp_ops_mcp_gateway/service.py:231-252 | Audits with the approval's current status and completes the key |
| Gateway.McpGateway.Fail | services/mcp-gateway/src/mcp_ops_mcp_gateway/service.py:253-266 | Audits the failure and completes the key only if this call reserved it |
| Gateway.McpGateway.RuleOnOperation | services/mcp-gateway/src/mcp_ops_mcp_gateway/service.py:270-335 | approve_operation and reject_operation: an unknown caller is refused, a missing or lapsed record reported; on a live record the caller rules if and only if it holds approvals:approve, is no AI agent and is not the requester, and otherwise gets permission_denied and decides nothing; what it rules is what it was asked to, recorded in its name with time and reason, with one event and one audit record, and only on a pending record |
| GatewayRulings.RulingAnswers | services/mcp-gateway/src/mcp_ops_mcp_gateway/service.py:270-335 | The same of the two steps of a ruling, from every state in which records are filed under their ids |
| Gateway.McpGateway.ListApprovals | services/mcp-gateway/src/mcp_ops_mcp_gateway/service.py:337-358 | A caller without a valid token gets unauthorized_user, one whose role lacks approvals:approve permission_denied, and nothing changes; anyone else expires every overdue pending approval and gets the listing of what is left |
| Gateway.McpGateway.GetApproval | services/mcp-gateway/src/mcp_ops_mcp_gateway/service.py:360-378 | The same refusals; otherwise expires the approval if it is overdue and returns it or its absence |
| Approvals.ApprovalStore.ListAll | services/mcp-gateway/src/mcp_ops_mcp_gateway/stores.py:251-261 | Expires what is overdue and returns the records of the wanted status, sorted |
| ApprovalListing.ListingIsRight | services/mcp-gateway/src/mcp_ops_mcp_gateway/stores.py:251-261 | From every reachable store a listing holds exactly the records of the wanted status, in the order of creation, records of one moment in dictionary order, and none pending past its deadline |
| ApprovalListing.RecordsInOrder | services/mcp-gateway/src/mcp_ops_mcp_gateway/stores.py:251-261 | What is sorted is every record, in the order of the dictionary |
| ApprovalListing.SortIsStable | services/mcp-gateway/src/mcp_ops_mcp_gateway/stores.py:261 | The sort orders the list and keeps the order of records created at one moment |
| ApprovalListing.SweepLeavesNoneOverdue | services/mcp-gateway/src/mcp_ops_mcp_gateway/stores.py:330-333 | A sweep leaves none of the approvals it visits overdue |
| Gateway.CallEnds | services/mcp-gateway/src/mcp_ops_mcp_gateway/service.py:136-268 | A call on its own always ends, answered or left by an exception |
| Gateway.FinishIsSteps | services/mcp-gateway/src/mcp_ops_mcp_gateway/service.py:136-268 | Finishing a call in one go is stepping it to its end in the system |
| Gateway.CallToolIsARun | services/mcp-gateway/src/mcp_ops_mcp_gateway/service.py:136-268 | What call_tool leaves after any run of the gateway is what a longer run of the machine leaves, so the run theorems cover it |
| Approvals.ApprovalStore.CreateApproval | services/mcp-gateway/src/mcp_ops_mcp_gateway/stores.py:212-249 | Adds a pending record, its event and its audit record, and nothing else |
| Approvals.ApprovalStore.GetDetail | services/mcp-gateway/src/mcp_ops_mcp_gateway/stores.py:263-267 | Expires the record first if it is overdue |
| Approvals.ApprovalStore.GetLive | services/mcp-gateway/src/mcp_ops_mcp_gateway/stores.py:273-279 | As above, and refuses an expired one |
| Approvals.ApprovalStore.ApproveOne | services/mcp-gateway/src/mcp_ops_mcp_gateway/stores.py:281-300 | Approves a live pending record, in one transition with event and audit record |
| Approvals.ApprovalStore.RejectOne | services/mcp-gateway/src/mcp_ops_mcp_gateway/stores.py:302-328 | Rejects one |
| Approvals.ApprovalStore.ExpireAllPending | services/mcp-gateway/src/mcp_ops_mcp_gateway/stores.py:330-333 | Expires the overdue records in dictionary order |
| Approvals.ApprovalStore.MarkOneExecuted | services/mcp-gateway/src/mcp_ops_mcp_gateway/stores.py:335-361 | Executes a live approved record |
| Approvals.ApprovalStore.MarkOneFailed | services/mcp-gateway/src/mcp_ops_mcp_gateway/stores.py:363-387 | Fails an approved or pending record without expiring it |
| Approvals.AuditLog.Append | services/mcp-gateway/src/mcp_ops_mcp_gateway/stores.py:450-457 | Appends one record |
| ApprovalEffects.CreateEffect | services/mcp-gateway/src/mcp_ops_mcp_gateway/stores.py:212-249 | A new record is stored under its id, with an approval.requested event and an audit record in the name of whoever asks |
| ApprovalEffects.DetailEffect | services/mcp-gateway/src/mcp_ops_mcp_gateway/stores.py:263-267 | Reading answers the record as it stands, after expiring it in the name of the system if it is pending and its deadline has come |
| ApprovalEffects.GetEffect | services/mcp-gateway/src/mcp_ops_mcp_gateway/stores.py:273-279 | A live record is returned and nothing changes; a missing or expired one is reported |
| ApprovalEffects.ApproveEffect | services/mcp-gateway/src/mcp_ops_mcp_gateway/stores.py:281-300 | Approving takes exactly the live pending records, and names approver and time; any other live record is approval_denied |
| ApprovalEffects.RejectEffect | services/mcp-gateway/src/mcp_ops_mcp_gateway/stores.py:302-328 | So does rejecting, with the reason |
| ApprovalEffects.ExecutedEffect | services/mcp-gateway/src/mcp_ops_mcp_gateway/stores.py:335-361 | Only a live approved record can be marked executed, with time and result |
| ApprovalEffects.FailedEffect | services/mcp-gateway/src/mcp_ops_mcp_gateway/stores.py:363-387 | Approved and pending records can be marked failed, whatever their deadline, with the reason |
| ApprovalEffects.SweepEffect | services/mcp-gateway/src/mcp_ops_mcp_gateway/stores.py:330-333 | A sweep expires exactly the overdue pending records it visits and changes no other |
| ApprovalLifecycle.ReachableApproval | services/mcp-gateway/src/mcp_ops_mcp_gateway/stores.py:212-448 | In every reachable store: versions count events and stop at three, the last event tells the status, executed approvals were approved first, approval came strictly before the deadline |
| ApprovalLifecycle.PerformKeeps | services/mcp-gateway/src/mcp_ops_mcp_gateway/stores.py:212-411 | Every operation continues the life of the record it touches along the lifecycle and leaves the others' lives alone |
| ApprovalLifecycle.FinalIsFinal | services/mcp-gateway/src/mcp_ops_mcp_gateway/stores.py:281-411 | No operation changes a record whose status is REJECTED, EXPIRED, EXECUTED or FAILED |
| ApprovalLifecycle.FinalForever | services/mcp-gateway/src/mcp_ops_mcp_gateway/stores.py:281-411 | Such a record is the same in every later state of the run |
| Idempotency.IdempotencyStore.Reserve | services/mcp-gateway/src/mcp_ops_mcp_gateway/stores.py:126-143 | Expires, then replays a terminal record, refuses a pending one, or inserts and evicts |
| Idempotency.IdempotencyStore.EvictOldestIfNeeded | services/mcp-gateway/src/mcp_ops_mcp_gateway/stores.py:190-193 | Removes the first oldest entry until the store fits |
| Idempotency.IdempotencyStore.MarkRunning | services/mcp-gateway/src/mcp_ops_mcp_gateway/stores.py:145-156 | Changes the status of an existing record only |
| Idempotency.IdempotencyStore.Complete | services/mcp-gateway/src/mcp_ops_mcp_gateway/stores.py:158-180 | Keeps the creation time of an existing record, re-inserts a dropped key |
| Idempotency.EvictRemovesOldest | services/mcp-gateway/src/mcp_ops_mcp_gateway/stores.py:190-193 | What the eviction loop removes is never more recent than what it keeps |
| Idempotency.FreshReservation | services/mcp-gateway/src/mcp_ops_mcp_gateway/stores.py:136-143 | After a fresh reservation the store is within its capacity and, on a clock that never goes back and with room for one, the new record is in it |
| Idempotency.ReserveEffect | services/mcp-gateway/src/mcp_ops_mcp_gateway/stores.py:126-143 | A reservation leaves every other record as it was or removes it |
| Idempotency.OutcomeIff | services/mcp-gateway/src/mcp_ops_mcp_gateway/stores.py:126-143 | A reservation replays a finished record younger than its lifetime, refuses an unfinished one, and is fresh otherwise |
| Idempotency.RunningEffect | services/mcp-gateway/src/mcp_ops_mcp_gateway/stores.py:145-156 | Marking a key running changes the status of its record, if there is one, and no other record |
| Idempotency.CompleteEffect | services/mcp-gateway/src/mcp_ops_mcp_gateway/stores.py:158-180 | Completing a key stores response and status, keeps the age of the record, and changes no other |
| RateLimiter.FixedWindowRateLimiter.Check | services/mcp-gateway/src/mcp_ops_mcp_gateway/stores.py:85-94 | Pops expired calls from the left, then rejects or appends |
| RateLimiter.MemoryDecidesLikeReference | services/mcp-gateway/src/mcp_ops_mcp_gateway/stores.py:85-94 | On a clock that never goes back a call is rejected exactly when the trailing window already holds the limit of accepted calls |
| RateLimiter.MemoryLogIsAccepted | services/mcp-gateway/src/mcp_ops_mcp_gateway/stores.py:85-94 | Over whole runs the deque limiter accepts what the reference limiter, which forgets nothing, accepts |
| RateLimiterOrder.LimitHoldsIff | services/mcp-gateway/src/mcp_ops_mcp_gateway/stores.py:85-94 | The bound holds on every run of checks in which readings are at most so much behind earlier ones, if and only if the limit admits at most one call or no reading is behind at all |
| RateLimiterOrder.OneAtATime | services/mcp-gateway/src/mcp_ops_mcp_gateway/stores.py:85-94 | A limit of one holds whatever the order of the readings |
| RateLimiterOrder.OutOfOrderExceeds | services/mcp-gateway/src/mcp_ops_mcp_gateway/stores.py:85-94 | Any larger limit is exceeded by a run with one reading behind, by however little |
| SqlRateLimiter.SqlFixedWindowRateLimiter.Check | services/mcp-gateway/src/mcp_ops_mcp_gateway/persistence.py:240-267 | Deletes old rows of all keys, counts, and commits or rolls back |
| SqlRateLimiter.MixedWindowsDiffer | services/mcp-gateway/src/mcp_ops_mcp_gateway/persistence.py:243-246 | With a per-second and a per-minute tool some run in clock order tells them apart: the short window deletes rows the long one still needs |
| SqlRateLimiter.AgreeIffCommonWindow | services/mcp-gateway/src/mcp_ops_mcp_gateway/persistence.py:240-267 | On a clock that never goes back the limiters agree on every run if and only if all tools that admit any call share a window |
| SqlRateLimiter.AgreeBehindByIff | services/mcp-gateway/src/mcp_ops_mcp_gateway/persistence.py:240-267 | For any lag, the limiters answer alike every run in which readings are at most that far behind earlier ones if and only if no tool admits a call, or the lag is zero and all tools that admit any call share a window |
| SqlRateLimiter.OvertakenDiffers | services/mcp-gateway/src/mcp_ops_mcp_gateway/persistence.py:243-246 | With any tool that admits a call, a run with one reading one microsecond behind tells them apart: the table has lost to another principal's check what the deque still holds |
| SqlIdempotency.SqlIdempotencyStore.Reserve | services/mcp-gateway/src/mcp_ops_mcp_gateway/persistence.py:133-183 | Any outcome but a fresh reservation is rolled back; a fresh one commits the expiry, the row and the eviction |
| SqlIdempotency.SqlIdempotencyStore.MarkRunning | services/mcp-gateway/src/mcp_ops_mcp_gateway/persistence.py:185-196 | Changes the status of an existing row only |
| SqlIdempotency.SqlIdempotencyStore.Complete | services/mcp-gateway/src/mcp_ops_mcp_gateway/persistence.py:198-224 | Keeps the creation time of an existing row |
| SqlIdempotency.DeleteOldest | services/mcp-gateway/src/mcp_ops_mcp_gateway/persistence.py:173-181 | The ordered delete leaves the wanted number of rows, none older than a deleted one |
| SqlIdempotency.MemoryKeepsNewest | services/mcp-gateway/src/mcp_ops_mcp_gateway/stores.py:190-193 | The in-memory eviction loop is one of the results the ordered delete may have |
| SqlIdempotency.EvictionDeterminedIff | services/mcp-gateway/src/mcp_ops_mcp_gateway/persistence.py:173-181 | The ordered delete has a single possible result exactly when no timestamp ties across the cut |
| SqlIdempotency.EvictionsAgree | services/mcp-gateway/src/mcp_ops_mcp_gateway/persistence.py:164-183 | With distinct timestamps the loop and the ordered delete leave the same records |
| SqlIdempotency.FreshReservationsAgree | services/mcp-gateway/src/mcp_ops_mcp_gateway/persistence.py:133-183 | So do whole fresh reservations |
| SqlIdempotencyRuns.StoresAgree | services/mcp-gateway/src/mcp_ops_mcp_gateway/persistence.py:122-224 | Whatever the clock, in every run that meets no row which only the table still has, neither live at a reservation nor at a completion, and whose evictions leave the database no choice, the two stores stay matched and answer every operation alike |
| SqlIdempotencyRuns.TickingRunIsFaithful | services/mcp-gateway/src/mcp_ops_mcp_gateway/persistence.py:122-224 | On a clock that never goes back it is enough that no timestamp ties at an eviction's cut and no row that only the table still has is completed |
| SqlIdempotencyRuns.ReservationAgreesIff | services/mcp-gateway/src/mcp_ops_mcp_gateway/persistence.py:133-163 | From matching stores a reservation on any reading is answered alike if and only if its key is not a row that only the table has and that is live on that reading |
| SqlIdempotencyRuns.EarlierReadingParts | services/mcp-gateway/src/mcp_ops_mcp_gateway/persistence.py:145-163 | A concrete run without any completion after which a reservation on an earlier reading is fresh in memory and a duplicate in the table |
| SqlIdempotencyRuns.StepKeepsMatch | services/mcp-gateway/src/mcp_ops_mcp_gateway/persistence.py:133-224 | Each such operation keeps the dictionary's records in the table |
| SqlIdempotencyRuns.CompletionAgreesIff | services/mcp-gateway/src/mcp_ops_mcp_gateway/persistence.py:211-224 | After a completion the stores answer the next reservation of the key alike if and only if the completed row was not an expired one that only the table still had |
| SqlIdempotencyRuns.StoresPart | services/mcp-gateway/src/mcp_ops_mcp_gateway/persistence.py:145-163 | A concrete run after which the dictionary replays a call that the table lets through again, because the table rolled an expiry back |
| SqlApprovals.SqlApprovalStore.CreateApproval | services/mcp-gateway/src/mcp_ops_mcp_gateway/persistence.py:303-342 | Inserts row and event, then audits |
| SqlApprovals.SqlApprovalStore.GetDetail | services/mcp-gateway/src/mcp_ops_mcp_gateway/persistence.py:356-358 | Expires the row in its own transaction, then reads it |
| SqlApprovals.SqlApprovalStore.GetLive | services/mcp-gateway/src/mcp_ops_mcp_gateway/persistence.py:367-372 | As above, and refuses an expired one |
| SqlApprovals.SqlApprovalStore.MoveOn | services/mcp-gateway/src/mcp_ops_mcp_gateway/persistence.py:470-485 | A changed copy of a live pending row, nothing written yet |
| SqlApprovals.SqlApprovalStore.ApproveOne | services/mcp-gateway/src/mcp_ops_mcp_gateway/persistence.py:374-387 | Merges the approved copy |
| SqlApprovals.SqlApprovalStore.RejectOne | services/mcp-gateway/src/mcp_ops_mcp_gateway/persistence.py:389-402 | Merges the rejected copy |
| SqlApprovals.SqlApprovalStore.ExpireAllPending | services/mcp-gateway/src/mcp_ops_mcp_gateway/persistence.py:404-421 | Expires the overdue rows in whatever order the query returns them |
| SqlApprovals.SqlApprovalStore.MarkOneExecuted | services/mcp-gateway/src/mcp_ops_mcp_gateway/persistence.py:423-449 | Merges the executed copy of a live approved row |
| SqlApprovals.SqlApprovalStore.MarkOneFailed | services/mcp-gateway/src/mcp_ops_mcp_gateway/persistence.py:451-468 | Merges the failed copy |
| SqlApprovals.StepMatches | services/mcp-gateway/src/mcp_ops_mcp_gateway/persistence.py:303-521 | For each operation, from matching stores: the same reply, and records, per-approval events and non-expiry audit records match again |
| SqlApprovals.StoresAgree | services/mcp-gateway/src/mcp_ops_mcp_gateway/persistence.py:303-521 | For every list of operations the two stores raise the same errors and end in equal records with equal versions and per-approval events, however the sweeps are ordered |
| SqlAuditTrails.TrailsEqualIff | services/mcp-gateway/src/mcp_ops_mcp_gateway/persistence.py:404-421 | After every list of operations the two stores' audit trails are equal if and only if no approval has expired |
| SqlAuditTrails.TrailsDiffer | services/mcp-gateway/src/mcp_ops_mcp_gateway/persistence.py:500-514 | A concrete list after which they differ |
| SqlGatewayRuns.GatewaysAgree | services/mcp-gateway/src/mcp_ops_mcp_gateway/service.py:136-378 | For runs of calls, rulings, listings and readings one after another, with one window for all rate limits, calls that start in clock order and no timestamp tie at an eviction's cut, the gateway over the tables gives every caller the answer of the gateway over the in-memory stores |
| SqlGateway.CallSame | services/mcp-gateway/src/mcp_ops_mcp_gateway/service.py:136-268 | A lone call over the tables is answered as over matching in-memory stores and leaves the stores matching |
| SqlGateway.RecordsStaySame | services/mcp-gateway/src/mcp_ops_mcp_gateway/persistence.py:303-521 | No operation on approvals depends on the audit trail |
| SqlGatewayRuns.OtherTurnSame | services/mcp-gateway/src/mcp_ops_mcp_gateway/service.py:270-378 | So are rulings, listings and readings |
| SqlGatewayRuns.RuledIsRuling | services/mcp-gateway/src/mcp_ops_mcp_gateway/service.py:270-335 | A ruling in one go is the two steps of the machine |
| SqlGatewayRuns.ReadingIsGuarded | services/mcp-gateway/src/mcp_ops_mcp_gateway/service.py:337-378 | A listing or reading turn shows records only to holders of approvals:approve, and tells the others why not |
| SqlGatewayRuns.AuditedStatusDiffers | services/mcp-gateway/src/mcp_ops_mcp_gateway/service.py:214-241 | The audit records differ: of an executed approval the record of the answer tells EXECUTED over the in-memory store, whose record the call holds, and APPROVED over the tables, whose row it had copied |
| PathSearch.Dijkstra | services/ai-agent/src/mcp_ops_ai_agent/capabilities/service.py:191-230 | Reports reachable exactly when a walk of enabled, allowed edges exists; the path returned is such a walk without repeated types and of least total score among all of them; the types expanded are distinct and are those reached for less than the goal's cost, all of them, and some of those reached for as much; at most one push per edge plus the initial one |
| PathSearch.Bfs | services/ai-agent/src/mcp_ops_ai_agent/capabilities/service.py:160-189 | Reports reachable exactly when a walk exists; the path returned has the fewest edges, and of all walks with the fewest edges it is the first in the order of the edges |
| PathSearch.FindPath | services/ai-agent/src/mcp_ops_ai_agent/capabilities/service.py:99-107 | Each strategy answers with the best walk by its own measure, "shortest" over all enabled edges; cost, risk and flag are those of the edges returned, and of no path at all when there is none |
| PathTerms.AnswerIsFound | services/ai-agent/src/mcp_ops_ai_agent/capabilities/service.py:99-107 | What find_path answers in terms of the request and of edge fields alone: from the text before the first colon of the source to the type the goal stands for, a route of enabled edges on no disabled server that the policy allows for this role and environment (any enabled edges for "shortest"), each starting where the last one ends; no other such route costs less (or is shorter, for "shortest"); its nodes, tools, total_cost and risk_score are those of the route; unreachable if and only if there is no such route |
| PathTerms.DetourIff | services/ai-agent/src/mcp_ops_ai_agent/capabilities/service.py:99-107 | On a graph with a direct edge and a detour over two READ_ONLY edges, every answer of "lowest_risk" is the detour, of total_cost 2.2 and risk_score 0, if and only if the direct edge is HIGH, CRITICAL or unknown; of the default strategy if and only if it is CRITICAL or unknown; of "shortest" never |
| PathTerms.ScoreFollowsCost | services/ai-agent/src/mcp_ops_ai_agent/capabilities/service.py:356-363 | A score rises one for one with the cost of the edge, and only cost, risk and server count |
| PathTerms.ScoreFollowsRisk | services/ai-agent/src/mcp_ops_ai_agent/capabilities/service.py:20-26 | It rises strictly through READ_ONLY, LOW, MEDIUM, HIGH, CRITICAL and unknown, and does not depend on the risk in any other way |
| PathTerms.RiskCountsFour | services/ai-agent/src/mcp_ops_ai_agent/capabilities/service.py:356-361 | "lowest_risk" counts four times the risk that the other strategies count |
| PathTerms.LocalIsCheaper | services/ai-agent/src/mcp_ops_ai_agent/capabilities/service.py:362 | A server whose name ends in "-mcp" is a tenth cheaper than another |
| PathTerms.WalkIsRoute | services/ai-agent/src/mcp_ops_ai_agent/capabilities/service.py:232-262 | The walks the searches range over are exactly the routes of permitted edges |
| PathTerms.CostsAgree | services/ai-agent/src/mcp_ops_ai_agent/capabilities/service.py:320-335 | total_cost adds up the default scores of the edges and risk_score their penalties, whatever the strategy |
| PathTerms.TypeIsUnique | services/ai-agent/src/mcp_ops_ai_agent/capabilities/service.py:314-317 | A reference has one type, the text before its first colon or all of it |
| PathTerms.GoalLeads | services/ai-agent/src/mcp_ops_ai_agent/capabilities/service.py:28-34 | The type each goal stands for |
| PathSearch.PushOutgoing | services/ai-agent/src/mcp_ops_ai_agent/capabilities/service.py:212-229 | The loop over the outgoing edges, its prices and its number of pushes |
| PathSearch.EnqueueOutgoing | services/ai-agent/src/mcp_ops_ai_agent/capabilities/service.py:180-188 | The breadth-first counterpart |
| PathSearch.ShortestIsNeverLonger | services/ai-agent/src/mcp_ops_ai_agent/capabilities/service.py:99-107 | "shortest" reaches whatever another strategy reaches and never with more edges |
| PathSearch.FilteredStrategiesAgree | services/ai-agent/src/mcp_ops_ai_agent/capabilities/service.py:99-107 | "lowest_risk" and "policy_compliant" agree on reachability |
| PathSearch.FlagRightIff | services/ai-agent/src/mcp_ops_ai_agent/capabilities/service.py:320-353 | Whatever the strategy, the policy_compliant flag of a reachable answer is right if and only if every edge of the path is allowed |
| PathSearch.ShortestFlagRightIff | services/ai-agent/src/mcp_ops_ai_agent/capabilities/service.py:99-107 | The flag of the answer of "shortest" is right if and only if the first, in the order of the edges, of the walks with the fewest edges is of allowed edges, or there is no walk |
| PathSearch.FilteredFlagIsRight | services/ai-agent/src/mcp_ops_ai_agent/capabilities/service.py:191-230 | The flag of the other strategies is always right |
| PathSearch.FlagCanBeWrong | services/ai-agent/src/mcp_ops_ai_agent/capabilities/service.py:99-107 | A concrete graph and request to which every answer is flagged compliant and goes over a disabled server |
| PathSearch.ShortestRepeatsNothing | services/ai-agent/src/mcp_ops_ai_agent/capabilities/service.py:180-188 | A walk with the fewest edges repeats no type, so pruning never hides it |
| PathSearch.FirstShortestRepeatsNothing | services/ai-agent/src/mcp_ops_ai_agent/capabilities/service.py:180-188 | Nor does the first of them, so pruning never hides the answer of "shortest" |
| EdgeOrder.FrontIsFirst | services/ai-agent/src/mcp_ops_ai_agent/capabilities/service.py:172-177 | The front of the queue, at an unsettled type, is the first of all walks to it |
| EdgeOrder.QueueCutsWalk | services/ai-agent/src/mcp_ops_ai_agent/capabilities/service.py:172-188 | Some path in the queue comes no later than any given walk to an unsettled type |
| EdgeOrder.PushKeepsSorted | services/ai-agent/src/mcp_ops_ai_agent/capabilities/service.py:180-188 | Pushing the extensions in the order of the edges keeps the queue sorted |
| EdgeOrder.PushKeepsSettled | services/ai-agent/src/mcp_ops_ai_agent/capabilities/service.py:179-188 | Each settled type was settled by its first walk, whose extensions are in the queue or lead to settled types |
| EdgeOrder.FirstWalkIsUnique | services/ai-agent/src/mcp_ops_ai_agent/capabilities/service.py:160-189 | There is only one first walk |
| EdgeOrder.FirstWalkIsShortest | services/ai-agent/src/mcp_ops_ai_agent/capabilities/service.py:160-189 | It has the fewest edges |
| PathSearch.PoppedNew | services/ai-agent/src/mcp_ops_ai_agent/capabilities/service.py:211-229 | Settling a popped type and pushing its extensions keeps the search invariant and makes progress |
| PathSearch.PoppedInOrder | services/ai-agent/src/mcp_ops_ai_agent/capabilities/service.py:211-229 | It also keeps the order of the pops: what is settled costs no more than what is in the frontier, and is reached by a walk of that cost |
| PathSearch.PoppedSettled | services/ai-agent/src/mcp_ops_ai_agent/capabilities/service.py:209-210 | Skipping a settled type loses nothing |
| PathSearch.PopTakesCheapest | services/ai-agent/src/mcp_ops_ai_agent/capabilities/service.py:206 | The entry popped by (cost, sequence) is a cheapest path of the frontier and, of the cheapest, the one pushed first |
| PathSearch.PopKeepsNumbered | services/ai-agent/src/mcp_ops_ai_agent/capabilities/service.py:206-229 | Pops keep the entries in the order in which they were pushed, as pushes do |
| Frontier.CheapestIsOptimal | services/ai-agent/src/mcp_ops_ai_agent/capabilities/service.py:205-211 | The cheapest frontier path to an unsettled type is a cheapest walk to it among all walks |
| Frontier.ExhaustedMeansUnreachable | services/ai-agent/src/mcp_ops_ai_agent/capabilities/service.py:230 | An empty frontier with the goal unsettled means that there is no walk |
| Frontier.ExpandKeepsInvariant | services/ai-agent/src/mcp_ops_ai_agent/capabilities/service.py:211-229 | Skipping edges back into the path's own types does not break the frontier |
| Frontier.ExpandKeepsMonotone | services/ai-agent/src/mcp_ops_ai_agent/capabilities/service.py:211-229 | Pushing extensions keeps the frontier no cheaper than what is settled |
| Frontier.CheaperIsSettled | services/ai-agent/src/mcp_ops_ai_agent/capabilities/service.py:205-211 | A type with a walk cheaper than the whole frontier is settled |
| Frontier.OutgoingMembers | services/ai-agent/src/mcp_ops_ai_agent/capabilities/service.py:232-233 | Exactly the enabled edges that leave the type |
| CapabilityGraph.WeightPositive | services/ai-agent/src/mcp_ops_ai_agent/capabilities/service.py:356-363 | Every edge scores at least a tenth |
| SentenceChunks.Chunk | services/ai-agent/src/mcp_ops_ai_agent/engineering_rag/ingestion.py:139-153 | The words of the text joined by single spaces are cut at every '.', '!' or '?' that whitespace follows and nowhere else, and these sentences are packed into chunks: joining the chunks gives the same text back, each chunk fits or is a single over-long sentence, none could have taken the first sentence of the next, and no other contiguous split meeting the size rule uses fewer |
| SentenceChunks.CutIsUnique | services/ai-agent/src/mcp_ops_ai_agent/engineering_rag/ingestion.py:145 | A text can be cut in one way only into sentences that hold no '.', '!' or '?' followed by whitespace and that, but for the last, end in one of them |
| SentenceChunks.SentencesCutAtStops | services/ai-agent/src/mcp_ops_ai_agent/engineering_rag/ingestion.py:145 | The program cuts it that way |
| SentenceChunks.FullSplitIsUnique | services/ai-agent/src/mcp_ops_ai_agent/engineering_rag/ingestion.py:146-152 | Sentences can be packed in one way only so that each chunk fits or is a single sentence and could not have taken the next one, so the chunks are determined |
| SentenceChunks.PackIsFull | services/ai-agent/src/mcp_ops_ai_agent/engineering_rag/ingestion.py:146-152 | The greedy packing is of this kind |
| SentenceChunks.NormalizeJoinsWords | services/ai-agent/src/mcp_ops_ai_agent/engineering_rag/ingestion.py:140 | Normalizing a text is joining the words that its whitespace separates by single spaces |
| SentenceChunks.PackSentences | services/ai-agent/src/mcp_ops_ai_agent/engineering_rag/ingestion.py:143-153 | The loop computes the greedy packing |
| SentenceChunks.PackIsMinimal | services/ai-agent/src/mcp_ops_ai_agent/engineering_rag/ingestion.py:145-150 | Greedy stays ahead of every other split |
| SentenceChunks.PackKeepsSentences | services/ai-agent/src/mcp_ops_ai_agent/engineering_rag/ingestion.py:145-150 | Packing loses, adds and reorders nothing |
| SentenceChunks.SentencesRoundTrip | services/ai-agent/src/mcp_ops_ai_agent/engineering_rag/ingestion.py:145 | Cutting a normalized text after its stops and joining gives it back |
| SentenceChunks.NormalizeIsNormal | services/ai-agent/src/mcp_ops_ai_agent/engineering_rag/ingestion.py:140 | Normalized text has single inner spaces and no outer ones |
| SentenceChunks.NormalizeFixesIff | services/ai-agent/src/mcp_ops_ai_agent/engineering_rag/ingestion.py:140 | Exactly the normalized texts are left alone, so normalizing again changes nothing |
| SentenceChunks.MinimalSplitJoins | services/ai-agent/src/mcp_ops_ai_agent/engineering_rag/ingestion.py:139-153 | A minimal split joins back to the text and breaks the size only for single sentences |
| Simulator.SimulatedDevice.constructor | services/simulator-gateway/src/mcp_ops_simulator/registry.py:89-122 | A seeded device: healthy at 96, no scenario, its four services running, last seen at most 16 minutes before the base time |
| Simulator.SimulatedDevice.ActivateScenario | services/simulator-gateway/src/mcp_ops_simulator/registry.py:37-47 | Sets scenario and time; crashes sensor-ingestor, degrades telemetry-agent or sets every service running, as the scenario has it, and leaves status, score and other services |
| Simulator.SimulatedDevice.ClearScenario | services/simulator-gateway/src/mcp_ops_simulator/registry.py:49-57 | No scenario, healthy at 96, every service running |
| Simulator.SimulatedDevice.UpdateHealth | services/simulator-gateway/src/mcp_ops_simulator/registry.py:59-69 | Sets status, score and time only; scenario and services stay |
| Simulator.SimulatedDevice.RestartService | packages/mcp/src/mcp_ops_mcp/services.py:119-133 | Sets one service running, or reports it missing; nothing else changes |
| Simulator.HistorySettles | services/simulator-gateway/src/mcp_ops_simulator/registry.py:37-69 | After any history a device in no service scenario has every service running |
| Simulator.StatusDependsOnActiveScenario | services/simulator-gateway/src/mcp_ops_simulator/registry.py:71-198 | After any history of activations, clears, health updates and service restarts, on any device, the status and score computed from its telemetry depend only on the active scenario |
| Simulator.SettledStatus | services/simulator-gateway/src/mcp_ops_simulator/consumers.py:67-98 | The thresholds turn each scenario's telemetry into the status it stands for, for every device index |
| Simulator.ReadingMeans | services/simulator-gateway/src/mcp_ops_simulator/consumers.py:67-98 | Status and score by the thresholds: CRITICAL and 18 if and only if some critical condition holds, HEALTHY and 96 if and only if no condition does, WARNING and 62 otherwise; and the alert code is that of the first cause that applies |
| Simulator.NoBetterIsNoHealthier | services/simulator-gateway/src/mcp_ops_simulator/consumers.py:67-98 | A reading that is no better in any measure or service is not healthier and scores no higher |
| Simulator.ScenarioDisturbs | services/simulator-gateway/src/mcp_ops_simulator/registry.py:71-87 | A scenario changes its own measures and service states in a reading and no others |
| Simulator.CalmReadings | services/simulator-gateway/src/mcp_ops_simulator/registry.py:125-146 | The readings of a device in no scenario stay below every threshold; those of devices 14 and 50 in numbers |
| Simulator.CodeIsScenarioCodeIff | services/simulator-gateway/src/mcp_ops_simulator/consumers.py:135-151 | The alert code is the active scenario's own exactly unless a crash left behind hides a network timeout |
| Simulator.CodeDependsOnHistory | services/simulator-gateway/src/mcp_ops_simulator/consumers.py:135-151 | Two histories with the same active scenario and different alert codes |
| TelemetryConsumer.Consumer.Process | services/simulator-gateway/src/mcp_ops_simulator/consumers.py:34-64 | A repeat does nothing. A first delivery is remembered; one that cannot be evaluated or is for an unknown device raises and changes nothing else. A handled one updates its own device only: status and score by the thresholds, last seen at the event's time; and it publishes first one health event with what the device then holds, then, unless it is healthy, an alert, CRITICAL if and only if the status is, else WARNING, with the code of the reading, and then, if the status is CRITICAL, an incident that repeats the alert's severity and code |
| TelemetryConsumer.Consumer.PublishReading | services/simulator-gateway/src/mcp_ops_simulator/consumers.py:42-64 | The health event with the given status and score, the alert and the incident as just said, all at the event's time, on the bus in this order |
| TelemetryConsumer.ProcessDelivers | services/simulator-gateway/src/mcp_ops_simulator/consumers.py:34-64 | The same of the state function that the theorems about streams use |
| TelemetryConsumer.DeviceRegistry.UpdateHealth | services/simulator-gateway/src/mcp_ops_simulator/registry.py:59-69 | Updates the named device and no other |
| TelemetryConsumer.RepeatsChangeNothing | services/simulator-gateway/src/mcp_ops_simulator/consumers.py:34-64 | A stream with arbitrary repeats ends in the same registry and bus as its first deliveries |
| TelemetryConsumer.BusIsFirstDeliveries | services/simulator-gateway/src/mcp_ops_simulator/consumers.py:34-64 | The bus carries exactly the emissions of the first deliveries that can be evaluated and are for known devices, in order |
| TelemetryConsumer.EmissionsMeaning | services/simulator-gateway/src/mcp_ops_simulator/consumers.py:42-64 | An alert exactly when not HEALTHY, an incident exactly when CRITICAL |
| TelemetryConsumer.ProcessedAreSeen | services/simulator-gateway/src/mcp_ops_simulator/consumers.py:34-41 | The processed ids are those delivered |
| TelemetryConsumer.PublishedIffFirstHandled | services/simulator-gateway/src/mcp_ops_simulator/consumers.py:34-64 | Over a whole stream, the deliveries of one event id together publish something if and only if its first delivery could be evaluated and was for a known device, and then exactly that delivery's emissions |
| TelemetryConsumer.CorrectedEventIsSwallowed | services/simulator-gateway/src/mcp_ops_simulator/consumers.py:34-41 | A concrete stream: an event that could not be evaluated, and its corrected redelivery, which publishes nothing |

## Left out

- Thread and process isolation, deadlines and the tool handlers: a dispatch is one of four outcomes.
- Error messages, metrics, logging and tracing: only error codes are kept.
- JWT, SHA-256, JSON, regular expressions and the parsing of rate-limit strings: library code; a limit is a count and a window.
- The contents of the tool registry, the permission table and the authenticator: functions of the configuration. A limit string the parser refuses is not modelled.
- The JSON form of the answers of list_approvals, get_approval and the rulings: the records and error codes are modelled. The order of a table query among records created at one moment is not.
- Identity of approval records: a record is a value that a call reads again where the original holds a reference, and a read of a live status is one step with the audit record it goes into.
- Reuse of an approval id by the id factory: a step that would reuse one is not taken.
- Order of events of different approvals in the tables, and the length limits of text columns.
- Negative max_entries: a capacity is a natural number.
- Concurrent SQL transactions: the table stores and the gateway over them are compared with the in-memory ones one operation, and one call, at a time.
- Rounding of total_cost and risk_score, and floating point in general.
- The internals of the heap: a pop takes the least (cost, sequence) entry of a sequence.
- constrain_tool_sequence, the building of the edges and the goal inference: membership filters and tables.
- _chunk_text, _markdown_sections and sanitize_description: the round trip is that of _sentence_chunks.
- Uptime, configuration, location and the other static fields of a device, and telemetry snapshots of all devices: they do not take part in health.
- Execution before an approval's deadline: only pending approvals expire, so the claim is approval before the deadline.
- The workflow planner, execution engine, evaluation reports, HTTP clients, migrations and the frontend.
