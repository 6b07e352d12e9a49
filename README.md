# SIP service broker, modelled in Dafny

The broker sits between an IM-SCF and a chain of application servers (ASs).
An initial INVITE reaches the broker with a P-Original-Dialog-ID and a Route
that names an orchestration ruleset. The broker then invites the ASs of that
ruleset one after another, each a back-to-back user agent leg. Finally it
invites the IM-SCF again as the B leg. Responses, PRACKs, INFOs, CANCELs, ACKs
and BYEs are relayed leg by leg along that chain. Error responses are handled
by the ruleset's SKIP or STOP logic. Two side paths exist:

- auxiliary sessions: a single AS talks to the IM-SCF through the broker (`x-mrf` / `x-ica`);
- ping sessions: an OPTIONS request whose URI user lists service aliases, each of which must answer.

The model has one module per component:

| module | component |
|---|---|
| `Sip`, `Stack` | SIP vocabulary (requests, responses, headers, dialogs, transactions). The stack is a `Net` object whose `log` records every message it accepted; a send fails when its dialog or transaction is missing (a NullPointerException) or its link is in `broken` (a stack exception). |
| `Config` | `OrchestratedService` with its round-robin endpoint cursor; `OrchestrationRuleset` with SKIP/STOP per status code. |
| `Registry` | `SessionManager`: the map from session id to session. |
| `Mailbox` | `SessionTasksImpl`: the per-session event queue and its EMPTY / ENQUEUED / RUNNING status. |
| `MessageUtils` | header copying, Original-Dialog-ID, the INVITE built for the next leg, the CSeq counter. |
| `Handlers` | `B2BDialogsHandler`, with `ASHandler` and `ImScfHandler` as two roles of one class. |
| `Context` | `SessionContext`: the handlers, the chain A, AS..., B, handler loading and rollback, pending dialogs. |
| `StateBase`, `Chaining`, `Waiting`, `Ongoing`, `Ending`, `EndState`, `ErrorState`, `InitialState`, `Fsm` | the orchestrated session state machine: one module per state class, `Fsm` for dispatch, `handleEvent` and `OrchestratedSession`. |
| `Auxiliary`, `Ping` | `AuxiliarySession` and `PingSession`. |
| `Listener` | `SipMessageListener`: the routing of stack events to sessions. |

The central invariant is `StateBase.Inv`: the session context is `Valid`, and
every service of the ruleset can still pick an endpoint. Most state methods
require it and preserve it. Where a state method starts from a well-formed
chain (`Chained`), its contract also says how the chain changes.

Exceptions are modelled as a `Fault` value returned by the operation:
`SendResponseError`, `UnrecoverableError`, `UnexpectedSipMessageError`, and
`RuntimeFault` for a NullPointerException or UnsupportedOperationException.
The catch blocks of the source become explicit branches on that value.

## Model

| member | source | states |
|---|---|---|
| Config.NewEndpoint | ra/src/main/java/pl/ovoo/slee/resource/sip/broker/service/config/Endpoint.java:38-46 | a SIP URI gives an endpoint that keeps its URI and alias, whose Route is that URI with `lr` set; any other scheme fails the cast to SipURI and no endpoint is made |
| Config.SetLr | ra/src/main/java/pl/ovoo/slee/resource/sip/broker/service/config/Endpoint.java:45 | `setLrParam`: afterwards `lr` is present with the empty value, an existing `lr` is overwritten in place rather than repeated, and every other parameter keeps its position |
| Config.OrchestratedService.constructor | ra/src/main/java/pl/ovoo/slee/resource/sip/broker/service/config/OrchestratedService.java:40-45 | a new service has no endpoints and its cursor at 0 |
| Config.OrchestratedService.AddEndpoint | ra/src/main/java/pl/ovoo/slee/resource/sip/broker/service/config/OrchestratedService.java:53-56 | the endpoint is appended and the cursor reset to the first endpoint |
| Config.OrchestratedService.NextEndpoint | ra/src/main/java/pl/ovoo/slee/resource/sip/broker/service/config/OrchestratedService.java:63-70 | returns the endpoint at the cursor and advances the cursor, wrapping to 0 at the end; an empty list fails (None) |
| Config.PicksSlice | ra/src/main/java/pl/ovoo/slee/resource/sip/broker/service/config/OrchestratedService.java:63-70 | picks that do not reach the end of the list return the slice of endpoints from the cursor |
| Config.PicksSplit | ra/src/main/java/pl/ovoo/slee/resource/sip/broker/service/config/OrchestratedService.java:63-70 | k1 + k2 picks are k1 picks followed by k2 picks from where the cursor stopped |
| Config.PicksRound | ra/src/main/java/pl/ovoo/slee/resource/sip/broker/service/config/OrchestratedService.java:63-70 | round-robin fairness: a round of as many picks as endpoints, from any cursor, is the list rotated to the cursor, so each endpoint is used exactly once per round |
| Config.OrchestrationRuleset.constructor | ra/src/main/java/pl/ovoo/slee/resource/sip/broker/service/config/OrchestrationRuleset.java:37-44 | a new ruleset has its key, no services, no per-code handling and STOP as default |
| Config.OrchestrationRuleset.AppendApplication | ra/src/main/java/pl/ovoo/slee/resource/sip/broker/service/config/OrchestrationRuleset.java:46-48 | the service is appended to the chain order |
| Config.OrchestrationRuleset.AddErrorResponseHandling | ra/src/main/java/pl/ovoo/slee/resource/sip/broker/service/config/OrchestrationRuleset.java:64-66 | the status code maps to the handling; a later setting replaces an earlier one; other codes unchanged |
| Config.OrchestrationRuleset.SetDefaultErrorResponseHandling | ra/src/main/java/pl/ovoo/slee/resource/sip/broker/service/config/OrchestrationRuleset.java:68-70 | only the default changes |
| Config.OrchestrationRuleset.GetResponseHandling | ra/src/main/java/pl/ovoo/slee/resource/sip/broker/service/config/OrchestrationRuleset.java:72-78 | the handling configured for the code, otherwise the ruleset default |
| Registry.SessionManager.FindSession | ra/src/main/java/pl/ovoo/slee/resource/sip/broker/service/SessionManager.java:58-62 | Some exactly when the id is mapped, with its session |
| Registry.SessionManager.Put | ra/src/main/java/pl/ovoo/slee/resource/sip/broker/service/SessionManager.java:84-105 | the id maps to the new session and every other id keeps its session |
| Registry.SessionManager.ComputeIfAbsent | ra/src/main/java/pl/ovoo/slee/resource/sip/broker/service/SessionManager.java:70-76 | an existing session is returned unchanged; otherwise the new one is mapped and returned |
| Registry.SessionManager.Remove | ra/src/main/java/pl/ovoo/slee/resource/sip/broker/service/SessionManager.java:119-122 | only that id loses its session |
| Registry.SessionManager.RemoveAll | ra/src/main/java/pl/ovoo/slee/resource/sip/broker/service/SessionManager.java:124-131 | no id has a session afterwards |
| Mailbox.SessionTasks.EnqueueAndExecute | ra/src/main/java/pl/ovoo/slee/resource/sip/broker/service/eventqueue/SessionTasksImpl.java:53-67 | the event joins the back of the queue; a drain task is submitted exactly when the mailbox was EMPTY, which becomes ENQUEUED; never a second drain task |
| Mailbox.SessionTasks.GetNextEvent | ra/src/main/java/pl/ovoo/slee/resource/sip/broker/service/eventqueue/SessionTasksImpl.java:75-86 | the head of the queue with status RUNNING, or none with status EMPTY and the drain task finished |
| Mailbox.SessionTasks.Run | ra/src/main/java/pl/ovoo/slee/resource/sip/broker/service/eventqueue/SessionTasksImpl.java:89-97 | the events are handed to the session exactly in the order they were enqueued, and, when every hand-over returns normally, the mailbox ends EMPTY with no drain task outstanding |
| MessageUtils.ReplaceNamed | ra/src/main/java/pl/ovoo/slee/resource/sip/broker/utils/MessageUtils.java:351-361 | removing every header of a name and appending the incoming ones replaces exactly that name |
| MessageUtils.CopyHeaders | ra/src/main/java/pl/ovoo/slee/resource/sip/broker/utils/MessageUtils.java:351-361 | every non-excluded header name of the incoming message carries exactly the incoming headers afterwards; excluded names and names the incoming message lacks keep the outgoing headers |
| MessageUtils.GetCreateOriginalDialogId | ra/src/main/java/pl/ovoo/slee/resource/sip/broker/utils/MessageUtils.java:496-515 | the P-Original-Dialog-ID value when present (request unchanged); otherwise the id derived from Call-ID and tags, which is then set on the request |
| MessageUtils.OriginalDialogIdStable | ra/src/main/java/pl/ovoo/slee/resource/sip/broker/utils/MessageUtils.java:496-515 | asking a second time gives the same id and leaves the request as the first call left it |
| MessageUtils.CopiedBody | ra/src/main/java/pl/ovoo/slee/resource/sip/broker/utils/MessageUtils.java:363-367 | the body is copied exactly when the incoming one is non-empty |
| MessageUtils.ResponseToTag | ra/src/main/java/pl/ovoo/slee/resource/sip/broker/utils/MessageUtils.java:369-381 | a tag is added only when missing and the dialog is a server dialog with no state or early state; the dialog local tag is preferred over a generated one |
| MessageUtils.ResponseContact | ra/src/main/java/pl/ovoo/slee/resource/sip/broker/utils/MessageUtils.java:383-393 | no Contact change without an incoming Contact; a 3xx passes the incoming Contact on, any other status gets the broker Contact |
| MessageUtils.CopyResponseHeaders | ra/src/main/java/pl/ovoo/slee/resource/sip/broker/utils/MessageUtils.java:346-396 | headers copied except the excluded ones, then body, To tag and Contact as the three rules above say |
| MessageUtils.CopyRequestHeaders | ra/src/main/java/pl/ovoo/slee/resource/sip/broker/utils/MessageUtils.java:412-439 | headers copied except the excluded ones (Max-Forwards included, so the incoming value replaces the outgoing one), then the body, and the broker Contact always set |
| MessageUtils.CopyAckHeaders | ra/src/main/java/pl/ovoo/slee/resource/sip/broker/utils/MessageUtils.java:455-484 | as for requests (Max-Forwards copied too), with the broker Contact set only when the incoming ACK had a Contact |
| MessageUtils.SequenceNumber.IncrementAndGet | ra/src/main/java/pl/ovoo/slee/resource/sip/broker/utils/MessageUtils.java:179 | each CSeq number handed out is larger than every earlier one |
| MessageUtils.CreateInvite | ra/src/main/java/pl/ovoo/slee/resource/sip/broker/utils/MessageUtils.java:166-209 | the INVITE keeps the request URI, From and To, gets the given Call-ID and CSeq, the incoming Max-Forwards (the 70 it is built with is overwritten by the header copy), the broker Contact, and exactly the given Route headers |
| Handlers.OutgoingRoutes | ra/src/main/java/pl/ovoo/slee/resource/sip/broker/service/ASHandler.java:59-96 | an AS gets its endpoint Route on top of the incoming routes; the IM-SCF B leg gets the incoming routes without the first, or the default IM-SCF route when none is left (ImScfHandler.java 57-100) |
| Handlers.Handler.ProcessOutgoingInvite | ra/src/main/java/pl/ovoo/slee/resource/sip/broker/service/ImScfHandler.java:57-100 | the INVITE goes to the first Route with the next CSeq, a fresh Call-ID and the incoming Max-Forwards; on acceptance the INVITE, client transaction and dialog are recorded, otherwise UnrecoverableError and nothing recorded (ASHandler.java 59-96 likewise) |
| Handlers.Handler.ForwardResponse | ra/src/main/java/pl/ovoo/slee/resource/sip/broker/service/ASHandler.java:106-140 | an AS without a server transaction gets nothing. An error response (300 and up) first answers the pending INFO, then the PRACK, with 481: the log gains those answers and then the response, and each slot whose answer went out is emptied; a missing pending transaction returns before the response is sent (SendResponseError for an IM-SCF leg, RuntimeFault for an AS). A final response that went out closes the server transaction; the only errors are SendResponseError or, for an AS, a missing link (ImScfHandler.java 109-139) |
| Handlers.Handler.RespondToPendingRequests | ra/src/main/java/pl/ovoo/slee/resource/sip/broker/service/B2BDialogsHandler.java:198-223 | pending INFO then PRACK get 481 and are forgotten when answered; a stack error on the INFO answer stops there; a missing transaction is a RuntimeFault exactly when one is dereferenced |
| Handlers.Handler.ForwardPrackResponse | ra/src/main/java/pl/ovoo/slee/resource/sip/broker/service/B2BDialogsHandler.java:142-162 | the answer goes on the pending PRACK transaction; a final one that went out closes it; error from the send outcome |
| Handlers.Handler.ForwardInfoResponse | ra/src/main/java/pl/ovoo/slee/resource/sip/broker/service/B2BDialogsHandler.java:171-191 | the answer goes on the pending INFO transaction; a final one that went out closes it |
| Handlers.Handler.ForwardReliableProvisionalResponse | ra/src/main/java/pl/ovoo/slee/resource/sip/broker/service/B2BDialogsHandler.java:248-266 | nothing is sent while a reliable response awaits its PRACK; otherwise it is sent and the pending flag set exactly when it went out |
| Handlers.Handler.ProcessOutgoingPrack | ra/src/main/java/pl/ovoo/slee/resource/sip/broker/service/B2BDialogsHandler.java:269-285 | a PRACK on the outgoing dialog; the error reflects the stack outcome |
| Handlers.Handler.SendCancel | ra/src/main/java/pl/ovoo/slee/resource/sip/broker/service/B2BDialogsHandler.java:287-305 | a CANCEL on the last client transaction; the error reflects the stack outcome |
| Handlers.Handler.SendBye | ra/src/main/java/pl/ovoo/slee/resource/sip/broker/service/B2BDialogsHandler.java:311-327 | a BYE on the outgoing dialog; the error reflects the stack outcome |
| Handlers.Handler.SendTerminatingBye | ra/src/main/java/pl/ovoo/slee/resource/sip/broker/service/B2BDialogsHandler.java:334-343 | the handler ends TERMINATED whatever happens; only a missing dialog escapes |
| Handlers.Handler.SendTerminatingCancel | ra/src/main/java/pl/ovoo/slee/resource/sip/broker/service/B2BDialogsHandler.java:348-367 | the handler ends TERMINATED whatever happens; only a missing client transaction escapes |
| Handlers.Handler.ForwardBye | ra/src/main/java/pl/ovoo/slee/resource/sip/broker/service/B2BDialogsHandler.java:377-396 | a BYE on the given dialog; the error reflects the stack outcome |
| Handlers.Handler.SendRequestOnDialog | ra/src/main/java/pl/ovoo/slee/resource/sip/broker/service/B2BDialogsHandler.java:405-422 | the request goes on the dialog; the special INFO sender is remembered only when it went out |
| Handlers.Handler.LinkTo | ra/src/main/java/pl/ovoo/slee/resource/sip/broker/service/B2BDialogsHandler.java:424-430 | the two handlers point at each other as next and previous |
| Context.SessionContext.constructor | ra/src/main/java/pl/ovoo/slee/resource/sip/broker/service/sessionfsm/SessionContext.java:69-76 | given at least one endpoint: a well-formed chain A, one AS per endpoint in order, B; every handler INITIAL; nothing current or pending |
| Context.SessionContext.Load | ra/src/main/java/pl/ovoo/slee/resource/sip/broker/service/sessionfsm/SessionContext.java:109-152 | succeeds exactly when the ruleset has services and each has an endpoint; then a well-formed chain A, one AS per service in order (each with an endpoint of its service), B |
| Context.SessionContext.PickEndpoints | ra/src/main/java/pl/ovoo/slee/resource/sip/broker/service/sessionfsm/SessionContext.java:109-152 | one `nextEndpoint` per service from the given position, stopping with failure at the first service without endpoints |
| Context.ResumeIndex | ra/src/main/java/pl/ovoo/slee/resource/sip/broker/service/sessionfsm/SessionContext.java:161-203 | the rollback resumes just after the first service with the alias, at the end when none has it |
| Context.SessionContext.RollbackAsHandlers | ra/src/main/java/pl/ovoo/slee/resource/sip/broker/service/sessionfsm/SessionContext.java:161-203 | the chain is kept up to the given AS, followed by fresh ASs for the services after its alias and a fresh B leg; the chain stays well formed |
| Context.SessionContext.AddDialog | ra/src/main/java/pl/ovoo/slee/resource/sip/broker/service/sessionfsm/SessionContext.java:78-80 | the dialog counts among the open dialogs |
| Context.SessionContext.RemoveDialog | ra/src/main/java/pl/ovoo/slee/resource/sip/broker/service/sessionfsm/SessionContext.java:89-91 | true exactly when the dialog was open; it is open no more, and the count drops by one exactly then |
| Context.SessionContext.SetCurrentHandler | ra/src/main/java/pl/ovoo/slee/resource/sip/broker/service/sessionfsm/SessionContext.java:101-103 | only the current handler changes |
| Context.SessionContext.Exclude | ra/src/main/java/pl/ovoo/slee/resource/sip/broker/service/sessionfsm/ChainingState.java:365-377 | the skipped AS neighbours are linked to each other and the chain stays one path from A to B without it |
| Context.SessionContext.ChainDistinct | ra/src/main/java/pl/ovoo/slee/resource/sip/broker/service/sessionfsm/SessionContext.java:109-152 | no handler occurs twice in a well-formed chain |
| Context.SessionContext.ChainFits | ra/src/main/java/pl/ovoo/slee/resource/sip/broker/service/sessionfsm/SessionContext.java:109-152 | a well-formed chain is no longer than the handler list |
| StateBase.HandlerOf | ra/src/main/java/pl/ovoo/slee/resource/sip/broker/service/B2BDialogsHandler.java:598-600 | Some exactly when the application data names a handler of the session, and then that handler; None stands for a null wrapper or handler |
| StateBase.TearDownLeg | ra/src/main/java/pl/ovoo/slee/resource/sip/broker/service/sessionfsm/SessionStateBase.java:697-713 | the corrected teardown rule of the Findings table: a PROVISIONAL leg is cancelled, an early or confirmed one gets BYE (both then TERMINATED), and others are left as they are. An INVITED leg becomes SET_TO_CANCEL, where the source (701-703) only logs and leaves it INVITED |
| StateBase.WalkLegs | ra/src/main/java/pl/ovoo/slee/resource/sip/broker/service/sessionfsm/SessionStateBase.java:695-718 | on a well-formed chain every AS is torn down by the corrected rule (an INVITED AS becomes SET_TO_CANCEL, unlike 701-703) and the walk stops at the B leg |
| StateBase.DisconnectAllDialogsOnError | ra/src/main/java/pl/ovoo/slee/resource/sip/broker/service/sessionfsm/SessionStateBase.java:692-735 | on a well-formed chain every leg behind A ends in its state under the corrected teardown rule, and A keeps its own. An INVITED leg becomes SET_TO_CANCEL, where 701-703 and 730-731 leave it INVITED. The only fault is a missing handler |
| StateBase.HandleInternalError | ra/src/main/java/pl/ovoo/slee/resource/sip/broker/service/sessionfsm/SessionStateBase.java:644-685 | all dialogs torn down by the corrected rule (an INVITED leg SET_TO_CANCEL, see Findings); with removal the session leaves the registry and no state follows, otherwise InternalErrorState |
| StateBase.CheckAndRemoveSession | ra/src/main/java/pl/ovoo/slee/resource/sip/broker/service/sessionfsm/SessionStateBase.java:127-147 | the dialog stops being pending; the session leaves the registry exactly when that was the last pending dialog |
| StateBase.Retreat | ra/src/main/java/pl/ovoo/slee/resource/sip/broker/service/sessionfsm/SessionStateBase.java:744-749 | the handler becomes current; behind an AS fresh handlers are appended (the rollback), an IM-SCF leg keeps its next leg, and a well-formed chain stays well formed with no handler it did not hold before except fresh ones; a null handler is a RuntimeFault |
| StateBase.SendNewResponseBack | ra/src/main/java/pl/ovoo/slee/resource/sip/broker/service/sessionfsm/SessionStateBase.java:778-794 | a new response with the status on the handler last server transaction, nothing when no request is stored |
| StateBase.RespondBack | ra/src/main/java/pl/ovoo/slee/resource/sip/broker/service/sessionfsm/SessionStateBase.java:778-794 | the handler takes the call back and is sent a new response with the status |
| StateBase.ForwardBack | ra/src/main/java/pl/ovoo/slee/resource/sip/broker/service/sessionfsm/SessionStateBase.java:538-551 | the handler takes the call back and the received response is passed back through it |
| StateBase.PostponedCancel | ra/src/main/java/pl/ovoo/slee/resource/sip/broker/service/sessionfsm/SessionStateBase.java:294-328 | provisional answer: CANCEL and the state stays; final below 420: BYE and TERMINATING; from 420: TERMINATED; then 487 back to the cancelling leg |
| StateBase.CloseAnsweredLeg | ra/src/main/java/pl/ovoo/slee/resource/sip/broker/service/sessionfsm/SessionStateBase.java:305-314 | BYE to the answered leg, TERMINATING, the previous leg current and answered 487 |
| StateBase.CloseFailedLeg | ra/src/main/java/pl/ovoo/slee/resource/sip/broker/service/sessionfsm/SessionStateBase.java:316-323 | the previous leg current, the failed leg TERMINATED, 487 back |
| StateBase.LowerAscii | ra/src/main/java/pl/ovoo/slee/resource/sip/broker/service/sessionfsm/ChainingState.java:443 | ASCII letters map to lower case, every other character to itself |
| StateBase.PreprocessInvite | ra/src/main/java/pl/ovoo/slee/resource/sip/broker/service/sessionfsm/SessionStateBase.java:216-277 | a retransmission is dropped; otherwise server transaction and dialog recorded on the receiving leg, dialog pending, last incoming INVITE set, 100 Trying sent |
| StateBase.SendOkToCancel | ra/src/main/java/pl/ovoo/slee/resource/sip/broker/service/sessionfsm/SessionStateBase.java:488-499 | 200 on the CANCEL transaction; only a missing transaction escapes |
| StateBase.SendImmediateErrorResponse | ra/src/main/java/pl/ovoo/slee/resource/sip/broker/service/sessionfsm/SessionStateBase.java:616-633 | a stateless response with the status and phrase; stack errors ignored |
| StateBase.SendRequestOn | ra/src/main/java/pl/ovoo/slee/resource/sip/broker/service/sessionfsm/SessionStateBase.java:369-402 | the request goes back on the incoming or forward on the outgoing dialog; the special sender is remembered when it went out |
| StateBase.HandleCommonInfoLogic | ra/src/main/java/pl/ovoo/slee/resource/sip/broker/service/sessionfsm/SessionStateBase.java:404-451 | the INFO is stored on its sender and relayed one hop, or to A/B for a special INFO; towards a TERMINATED leg the sender gets 481 instead; the state stays |
| StateBase.ProcessInfoResponse | ra/src/main/java/pl/ovoo/slee/resource/sip/broker/service/sessionfsm/SessionStateBase.java:553-581 | the answer goes to the special sender if one is remembered, else one hop opposite to the dialog it came on; the special sender is forgotten |
| StateBase.InfoAnswerReturns | ra/src/main/java/pl/ovoo/slee/resource/sip/broker/service/sessionfsm/SessionStateBase.java:404-451 | an ordinary INFO relayed one hop along a well-formed chain has its answer routed back to its sender (ties 553-581 to 404-451) |
| Chaining.SkipOnChain | ra/src/main/java/pl/ovoo/slee/resource/sip/broker/service/sessionfsm/ChainingState.java:356-359 | on a well-formed chain the skip check never dereferences null, and a leg can be skipped exactly when it is strictly inside a chain with more than one AS |
| Chaining.ReplyBack | ra/src/main/java/pl/ovoo/slee/resource/sip/broker/service/sessionfsm/SessionStateBase.java:538-551 | the reply reaches the previous leg on its server transaction whenever there is something to answer |
| Chaining.RetreatAndReply | ra/src/main/java/pl/ovoo/slee/resource/sip/broker/service/sessionfsm/SessionStateBase.java:744-794 | as ReplyBack, after the leg took the call back |
| Chaining.ContinueSetup | ra/src/main/java/pl/ovoo/slee/resource/sip/broker/service/sessionfsm/ChainingState.java:388-432 | the next leg is current and INVITED with a pending dialog when the stack accepts; WaitingForImScf when it is the B leg; otherwise the 503 error logic applies |
| Chaining.InviteLeg | ra/src/main/java/pl/ovoo/slee/resource/sip/broker/service/sessionfsm/ChainingState.java:394-401 | the leg is sent the INVITE, marked INVITED and its dialog pending |
| Chaining.ApplyErrorLogic | ra/src/main/java/pl/ovoo/slee/resource/sip/broker/service/sessionfsm/ChainingState.java:259-276 | STOP: the previous leg takes the call back and gets the reply; not skippable: the previous leg gets it; otherwise the leg is skipped |
| Chaining.ExecuteSkipLogic | ra/src/main/java/pl/ovoo/slee/resource/sip/broker/service/sessionfsm/ChainingState.java:365-377 | the failed AS is linked out and setup continues with the next leg using the last incoming INVITE; on a well-formed chain the AS is gone for good |
| Chaining.CancelOnNext | ra/src/main/java/pl/ovoo/slee/resource/sip/broker/service/sessionfsm/ChainingState.java:122-152 | decided by the next leg state: INVITED marked SET_TO_CANCEL; TERMINATED 487 back; answered 481; otherwise CANCEL sent and the state kept |
| Chaining.ByeOnNext | ra/src/main/java/pl/ovoo/slee/resource/sip/broker/service/sessionfsm/ChainingState.java:165-186 | the BYE is kept on its sender and forwarded to the next leg outgoing dialog, which becomes TERMINATING |
| Chaining.PrackOnNext | ra/src/main/java/pl/ovoo/slee/resource/sip/broker/service/sessionfsm/ChainingState.java:68-96 | the sender is freed for the next reliable response and the PRACK forwarded; towards an ended leg 481 answers the pending requests |
| Chaining.HandleInvite | ra/src/main/java/pl/ovoo/slee/resource/sip/broker/service/sessionfsm/ChainingState.java:105-109 | an INVITE from the current AS continues setup with the leg after it |
| Chaining.ChainingReaction | ra/src/main/java/pl/ovoo/slee/resource/sip/broker/service/sessionfsm/ChainingState.java:221-290 | an error that is not ignored or postponed always ends the leg, and only a response below 300 leaves it in the chain |
| Chaining.HandleResponse | ra/src/main/java/pl/ovoo/slee/resource/sip/broker/service/sessionfsm/ChainingState.java:221-290 | ignored responses change nothing; SET_TO_CANCEL goes to postponedCancel; the rest is dispatched as ChainingReaction says |
| Chaining.EndLeg | ra/src/main/java/pl/ovoo/slee/resource/sip/broker/service/sessionfsm/ChainingState.java:251-276 | the leg is TERMINATED; a Reason header or STOP sends the response back, otherwise the error logic |
| Chaining.StopLeg | ra/src/main/java/pl/ovoo/slee/resource/sip/broker/service/sessionfsm/ChainingState.java:251-257 | Reason header: TERMINATED and the previous leg takes the call back |
| Chaining.PassProvisional | ra/src/main/java/pl/ovoo/slee/resource/sip/broker/service/sessionfsm/ChainingState.java:278-286 | the leg is PROVISIONAL and the response goes back |
| Chaining.ProcessResponseOK | ra/src/main/java/pl/ovoo/slee/resource/sip/broker/service/sessionfsm/ChainingState.java:484-560 | by CSeq method: INVITE ANSWERED and back; INFO relayed; BYE and PRACK as below; CANCEL nothing |
| Chaining.ByeAnswered | ra/src/main/java/pl/ovoo/slee/resource/sip/broker/service/sessionfsm/ChainingState.java:503-525 | on the outgoing dialog the leg is TERMINATED and the 200 goes back only to a TERMINATING previous leg; otherwise forward |
| Chaining.PrackAnswered | ra/src/main/java/pl/ovoo/slee/resource/sip/broker/service/sessionfsm/ChainingState.java:530-558 | during a reliable relay it always goes back and reaching A ends the relay; otherwise only once per leg, which becomes SESSION_PROGRESS_CONFIRMED |
| Chaining.ProcessSessionProgress | ra/src/main/java/pl/ovoo/slee/resource/sip/broker/service/sessionfsm/ChainingState.java:435-481 | a regular 183 or an AS take-over as below; unreliable ones just go back |
| Chaining.RegularProgress | ra/src/main/java/pl/ovoo/slee/resource/sip/broker/service/sessionfsm/ChainingState.java:446-457 | a reliable 183 goes back; once out the relay is on and the leg remembers it |
| Chaining.TakeOverProgress | ra/src/main/java/pl/ovoo/slee/resource/sip/broker/service/sessionfsm/ChainingState.java:461-480 | the leg becomes SESSION_PROGRESS_REPORTED; PRACKed at once when the previous leg already confirmed, otherwise passed back |
| Chaining.ProcessTimeout | ra/src/main/java/pl/ovoo/slee/resource/sip/broker/service/sessionfsm/ChainingState.java:294-345 | server timeout SendResponseError; non-INVITE client timeout UnexpectedSipMessageError; INVITE timeout clears the dialog, ends the session with the last one, else the 408 error logic |
| Waiting.AckNoted | ra/src/main/java/pl/ovoo/slee/resource/sip/broker/service/sessionfsm/WaitingForImScfState.java:283-324 | the ACK flags record ACKs from and to an IM-SCF leg; with both set the session is ongoing |
| Waiting.AcksReachOngoing | ra/src/main/java/pl/ovoo/slee/resource/sip/broker/service/sessionfsm/WaitingForImScfState.java:283-324 | the session becomes ongoing exactly when some ACK came from and some ACK went to an IM-SCF leg, in either order |
| Waiting.ForwardAck | ra/src/main/java/pl/ovoo/slee/resource/sip/broker/service/sessionfsm/WaitingForImScfState.java:283-324 | the ACK goes on the next leg outgoing dialog with that leg INVITE CSeq; the leg is ACKED |
| Waiting.WaitingReaction | ra/src/main/java/pl/ovoo/slee/resource/sip/broker/service/sessionfsm/WaitingForImScfState.java:153-203 | every error not ignored or postponed goes back |
| Waiting.ReactionsAgree | ra/src/main/java/pl/ovoo/slee/resource/sip/broker/service/sessionfsm/WaitingForImScfState.java:153-203 | agrees with ChainingState on ignored, postponed and 200; where chaining would end a leg this state sends the response back (ChainingState.java 221-290) |
| Waiting.HandleResponse | ra/src/main/java/pl/ovoo/slee/resource/sip/broker/service/sessionfsm/WaitingForImScfState.java:153-203 | 100 makes the leg PROVISIONAL; an error goes back, the B leg loses its dialog and the session is chaining again |
| Waiting.ImScfFailed | ra/src/main/java/pl/ovoo/slee/resource/sip/broker/service/sessionfsm/WaitingForImScfState.java:177-186 | the B leg loses its outgoing dialog and the previous leg takes the call back and gets the response |
| Waiting.PassProvisional | ra/src/main/java/pl/ovoo/slee/resource/sip/broker/service/sessionfsm/WaitingForImScfState.java:195-200 | the response goes back and the leg is PROVISIONAL |
| Waiting.ProcessResponseOK | ra/src/main/java/pl/ovoo/slee/resource/sip/broker/service/sessionfsm/WaitingForImScfState.java:216-280 | by CSeq method: INVITE ANSWERED and back; PRACK back; INFO relayed; BYE as chaining; others nothing |
| Waiting.PrackAnswered | ra/src/main/java/pl/ovoo/slee/resource/sip/broker/service/sessionfsm/WaitingForImScfState.java:235-247 | the 200 goes back; an IM-SCF target ends the reliable relay |
| Waiting.ProcessSessionProgress | ra/src/main/java/pl/ovoo/slee/resource/sip/broker/service/sessionfsm/WaitingForImScfState.java:327-358 | an x-as take-over is a SendResponseError; a reliable 183 goes back and turns the relay on |
| Waiting.ProcessTimeout | ra/src/main/java/pl/ovoo/slee/resource/sip/broker/service/sessionfsm/WaitingForImScfState.java:400-429 | server timeout SendResponseError; INVITE timeout via InviteTimedOut; other client timeouts nothing |
| Waiting.InviteTimedOut | ra/src/main/java/pl/ovoo/slee/resource/sip/broker/service/sessionfsm/WaitingForImScfState.java:409-427 | the dialog stops being pending; unless the session ended, the previous leg takes the call back with 408 |
| Ongoing.HandleBye | ra/src/main/java/pl/ovoo/slee/resource/sip/broker/service/sessionfsm/SessionOngoingState.java:52-92 | the direction is recorded and the BYE goes one leg in it |
| Ongoing.HandleResponse | ra/src/main/java/pl/ovoo/slee/resource/sip/broker/service/sessionfsm/SessionOngoingState.java:112-130 | only an INFO 200 is relayed; anything else UnexpectedSipMessageError |
| Ongoing.HandleAck | ra/src/main/java/pl/ovoo/slee/resource/sip/broker/service/sessionfsm/SessionOngoingState.java:134-162 | a late ACK goes to the next leg unless it is ACKED already, without changing its state |
| Ending.HandleBye | ra/src/main/java/pl/ovoo/slee/resource/sip/broker/service/sessionfsm/SessionEndingState.java:46-82 | the BYE goes one leg in the recorded direction |
| Ending.HandleResponse | ra/src/main/java/pl/ovoo/slee/resource/sip/broker/service/sessionfsm/SessionEndingState.java:90-129 | only a 200, sent one leg against the recorded direction; otherwise SendResponseError |
| Ending.HandleInvite | ra/src/main/java/pl/ovoo/slee/resource/sip/broker/service/sessionfsm/SessionEndingState.java:138-149 | a null current handler is a RuntimeFault with nothing sent. Otherwise the current handler takes the call back, the existing handlers are kept as a prefix, and the INVITE goes on as in ChainingState: to the first fresh handler behind an AS, or to the leg after an IM-SCF leg. When the stack accepts it, that leg is current and INVITED, its dialog is pending, and the step is NEW_WAITING for the B leg and Chaining otherwise |
| Ending.ProcessTimeout | ra/src/main/java/pl/ovoo/slee/resource/sip/broker/service/sessionfsm/SessionEndingState.java:152-185 | a timed-out forwarded BYE is answered 200 to the leg that sent it |
| EndState.HandleAck | ra/src/main/java/pl/ovoo/slee/resource/sip/broker/service/sessionfsm/EndState.java:50-53 | nothing changes |
| EndState.ProcessTimeout | ra/src/main/java/pl/ovoo/slee/resource/sip/broker/service/sessionfsm/EndState.java:65-68 | nothing changes |
| EndState.HandleResponse | ra/src/main/java/pl/ovoo/slee/resource/sip/broker/service/sessionfsm/EndState.java:78-88 | the responding leg is TERMINATED and the response goes back |
| ErrorState.HandleEvent | ra/src/main/java/pl/ovoo/slee/resource/sip/broker/service/sessionfsm/InternalErrorState.java:45-102 | dialog ends and INVITE timeouts stop being pending; a SET_TO_CANCEL leg is released as ReleaseOnResponse says; everything else is ignored; the state stays |
| ErrorState.Release | ra/src/main/java/pl/ovoo/slee/resource/sip/broker/service/sessionfsm/InternalErrorState.java:74-93 | CANCEL for a provisional response, BYE below 420, nothing from 420; only a missing link escapes |
| InitialState.HandleInvite | ra/src/main/java/pl/ovoo/slee/resource/sip/broker/service/sessionfsm/InitialState.java:49-78 | the first AS is current, INVITED and pending, and the session is chaining; if refused, a stateless 500 and the session ends |
| Fsm.NeverInitialAgain | ra/src/main/java/pl/ovoo/slee/resource/sip/broker/service/sessionfsm/SessionStateBase.java:81-119 | no run of the state machine returns to the initial state |
| Fsm.InternalErrorIsFinal | ra/src/main/java/pl/ovoo/slee/resource/sip/broker/service/sessionfsm/InternalErrorState.java:45-102 | once in InternalErrorState a session never leaves it |
| Fsm.EndIsFinal | ra/src/main/java/pl/ovoo/slee/resource/sip/broker/service/sessionfsm/EndState.java:38-88 | once in EndState a session stays there, except for an error |
| Fsm.OngoingAfterWaiting | ra/src/main/java/pl/ovoo/slee/resource/sip/broker/service/sessionfsm/WaitingForImScfState.java:283-324 | a session is ongoing only after waiting for the IM-SCF |
| Fsm.EndingAfterOngoing | ra/src/main/java/pl/ovoo/slee/resource/sip/broker/service/sessionfsm/SessionOngoingState.java:52-92 | a session is ending only after it was ongoing |
| Fsm.HandleRequest | ra/src/main/java/pl/ovoo/slee/resource/sip/broker/service/sessionfsm/SessionStateBase.java:150-198 | INVITE preprocessed and retransmissions dropped; CANCEL answered 200 first; unrouted methods get 405; an unhandled routed method is UnsupportedOperationException |
| Fsm.HandleEvent | ra/src/main/java/pl/ovoo/slee/resource/sip/broker/service/sessionfsm/SessionStateBase.java:81-119 | the next state follows the current one in the state order; InternalErrorState is never left; caught faults never escape (SendResponseError and UnrecoverableError for requests, all but RuntimeFault for responses); a dialog end is counted off and unmaps the session with its last dialog; other events are an UnsupportedOperationException |
| Fsm.OrchestratedSession.HandleNextEvent | ra/src/main/java/pl/ovoo/slee/resource/sip/broker/service/OrchestratedSession.java:73-87 | the returned state becomes current, the old one kept when none is returned or an exception escapes; the new state follows the old one, so the history stays a run from the initial state |
| Fsm.SessionOrder | ra/src/main/java/pl/ovoo/slee/resource/sip/broker/service/OrchestratedSession.java:73-87 | over a session life: ongoing only after waiting, ending only after ongoing |
| Auxiliary.IsRetransmission | ra/src/main/java/pl/ovoo/slee/resource/sip/broker/service/AuxiliarySession.java:589-598 | a stored request of that kind exists with the same topmost Via branch |
| Auxiliary.ImScfRoutes | ra/src/main/java/pl/ovoo/slee/resource/sip/broker/service/AuxiliarySession.java:480-492 | the incoming routes without the first, or the default IM-SCF route when none is left |
| Auxiliary.AuxiliarySession.constructor | ra/src/main/java/pl/ovoo/slee/resource/sip/broker/service/AuxiliarySession.java:75-81 | nothing pending, no dialogs |
| Auxiliary.AuxiliarySession.ResponseTarget | ra/src/main/java/pl/ovoo/slee/resource/sip/broker/service/AuxiliarySession.java:252-256 | a response from the AS dialog goes to the IM-SCF dialog, any other to the AS dialog |
| Auxiliary.AuxiliarySession.ClearSlot | ra/src/main/java/pl/ovoo/slee/resource/sip/broker/service/AuxiliarySession.java:261-288 | only that slot is emptied |
| Auxiliary.AuxiliarySession.CheckDialogAndRemoveSession | ra/src/main/java/pl/ovoo/slee/resource/sip/broker/service/AuxiliarySession.java:546-568 | the ended dialog is dropped; the session is unmapped exactly when that leaves no dialog |
| Auxiliary.AuxiliarySession.RespondToPending | ra/src/main/java/pl/ovoo/slee/resource/sip/broker/service/AuxiliarySession.java:186-204 | INFO then PRACK answered 481 and emptied; a failed send stops there |
| Auxiliary.AuxiliarySession.ProcessResponseForward | ra/src/main/java/pl/ovoo/slee/resource/sip/broker/service/AuxiliarySession.java:247-304 | sent on the pending transaction of its CSeq method; a final response empties the slot; nothing without a transaction |
| Auxiliary.AuxiliarySession.ProcessSessionProgress | ra/src/main/java/pl/ovoo/slee/resource/sip/broker/service/AuxiliarySession.java:223-244 | a 100rel 183 goes reliably on the AS dialog and is kept; others forwarded |
| Auxiliary.AuxiliarySession.HandleResponse | ra/src/main/java/pl/ovoo/slee/resource/sip/broker/service/AuxiliarySession.java:156-180 | 183 progress; 100 dropped; from 300 pending requests answered first; then forwarded |
| Auxiliary.AuxiliarySession.HandleTransactionTimeout | ra/src/main/java/pl/ovoo/slee/resource/sip/broker/service/AuxiliarySession.java:130-154 | server timeout SendResponseError; IM-SCF INVITE timeout ends its dialog, answers pending requests and sends 408 |
| Auxiliary.AuxiliarySession.ForwardInviteToImscf | ra/src/main/java/pl/ovoo/slee/resource/sip/broker/service/AuxiliarySession.java:476-507 | the INVITE, with the IM-SCF Route set, the next CSeq and the incoming Max-Forwards, is kept and sent on a new client transaction; its dialog becomes the IM-SCF dialog when accepted |
| Auxiliary.AuxiliarySession.RefuseInvite | ra/src/main/java/pl/ovoo/slee/resource/sip/broker/service/AuxiliarySession.java:462-471 | a stateless 503; failing that UnrecoverableError |
| Auxiliary.AuxiliarySession.HandleInvite | ra/src/main/java/pl/ovoo/slee/resource/sip/broker/service/AuxiliarySession.java:433-473 | retransmission ignored; else kept, server transaction made, 100 Trying, forwarded; a refusal gives 503 |
| Auxiliary.AuxiliarySession.RelayRequest | ra/src/main/java/pl/ovoo/slee/resource/sip/broker/service/AuxiliarySession.java:353-430 | a retransmission ignored; else the slot filled and the request relayed to the other dialog |
| Auxiliary.AuxiliarySession.HandlePrack | ra/src/main/java/pl/ovoo/slee/resource/sip/broker/service/AuxiliarySession.java:330-350 | transaction kept even for a retransmission; a new PRACK forwarded for the stored 183 |
| Auxiliary.AuxiliarySession.SendAckToImScf | ra/src/main/java/pl/ovoo/slee/resource/sip/broker/service/AuxiliarySession.java:510-523 | the ACK with the IM-SCF INVITE CSeq; without it a RuntimeFault |
| Auxiliary.AuxiliarySession.HandleRequest | ra/src/main/java/pl/ovoo/slee/resource/sip/broker/service/AuxiliarySession.java:307-323 | dispatch by method, others relayed like INFO |
| Auxiliary.AuxiliarySession.HandleNextEvent | ra/src/main/java/pl/ovoo/slee/resource/sip/broker/service/AuxiliarySession.java:85-127 | SIP-side errors only logged; NPE and unknown events escape; the session unmapped only when its dialogs are gone |
| Ping.TrimSpec | ra/src/main/java/pl/ovoo/slee/resource/sip/broker/service/PingSession.java:277 | trim keeps one contiguous slice; outside it all blank; a non-empty result starts and ends non-blank |
| Ping.SplitSpec | ra/src/main/java/pl/ovoo/slee/resource/sip/broker/service/PingSession.java:277 | no piece holds the separator; with one present the pieces are the fields, trailing empty ones dropped |
| Ping.JoinFields | ra/src/main/java/pl/ovoo/slee/resource/sip/broker/service/PingSession.java:277 | joining the fields gives the string back |
| Ping.BelowTotal | ra/src/main/java/pl/ovoo/slee/resource/sip/broker/service/PingSession.java:267 | the key order of the alias map is a strict total order (with BelowIrreflexive and BelowTransitive) |
| Ping.PutSpec | ra/src/main/java/pl/ovoo/slee/resource/sip/broker/service/PingSession.java:296 | TreeMap.put keeps keys sorted; k maps to v; other keys keep their values |
| Ping.Fill | ra/src/main/java/pl/ovoo/slee/resource/sip/broker/service/PingSession.java:279-297 | the alias map is sorted, holds exactly the aliases, each with its service endpoints |
| Ping.RepeatedAliasOnce | ra/src/main/java/pl/ovoo/slee/resource/sip/broker/service/PingSession.java:279-297 | a repeated alias is pinged once |
| Ping.SeparatorsOnlyParse | ra/src/main/java/pl/ovoo/slee/resource/sip/broker/service/PingSession.java:266-308 | a user part of separators only parses yet names no alias |
| Ping.PingSession.ParseUri | ra/src/main/java/pl/ovoo/slee/resource/sip/broker/service/PingSession.java:266-308 | rebuilds the alias map up to the first unusable alias; succeeds exactly when the URI parses |
| Ping.PingSession.PingServiceEndpoints | ra/src/main/java/pl/ovoo/slee/resource/sip/broker/service/PingSession.java:184-201 | endpoints tried in order; stops just past the first that takes the ping; true only when exhausted |
| Ping.PingSession.AnswerAndUnmap | ra/src/main/java/pl/ovoo/slee/resource/sip/broker/service/PingSession.java:224-257 | the answer goes statelessly and the session leaves the registry |
| Ping.PingSession.HandleRequest | ra/src/main/java/pl/ovoo/slee/resource/sip/broker/service/PingSession.java:112-143 | unparsable URI or no alias 400; otherwise the first alias is pinged, 404 when none answers |
| Ping.PingSession.TryNextEndpoint | ra/src/main/java/pl/ovoo/slee/resource/sip/broker/service/PingSession.java:167-174 | next endpoints of the current alias; the status when none left |
| Ping.PingSession.HandleOk | ra/src/main/java/pl/ovoo/slee/resource/sip/broker/service/PingSession.java:147-166 | the alias answered; the next alias or, at the end, 200 with every alias answered |
| Ping.PingSession.HandleNextEvent | ra/src/main/java/pl/ovoo/slee/resource/sip/broker/service/PingSession.java:80-110 | every branch is pinned down. A second request gets 400 and the session is unmapped. The first request gets 400 when its URI does not parse or names no alias; otherwise the first alias is pinged, with 404 and unmap when no endpoint takes it. A non-200 response or a timeout moves to the next endpoint, with 404 when none is left (no walk under way is a RuntimeFault). A 200 with aliases left pings the next alias, with 400 when none of its endpoints takes it. A 200 goes to the IM-SCF only after the last alias, once every alias of the URI has answered. Other events change nothing |
| Listener.HeaderInfoOf | ra/src/main/java/pl/ovoo/slee/resource/sip/broker/service/SipMessageListener.java:335-360 | none exactly when no Route qualifies; otherwise the first qualifying one |
| Listener.HeaderInfoKeepsId | ra/src/main/java/pl/ovoo/slee/resource/sip/broker/service/SipMessageListener.java:335-360 | the session id is the Original-Dialog-ID read |
| Listener.ReadHeaderInfo | ra/src/main/java/pl/ovoo/slee/resource/sip/broker/service/SipMessageListener.java:335-360 | the loop finds the first qualifying Route, as HeaderInfoOf |
| Listener.BrokerListener.RefuseRequest | ra/src/main/java/pl/ovoo/slee/resource/sip/broker/service/SipMessageListener.java:363-377 | a stateless response; a failed send only logged |
| Listener.BrokerListener.ProcessAuxiliarySession | ra/src/main/java/pl/ovoo/slee/resource/sip/broker/service/SipMessageListener.java:209-227 | an existing Call-ID drops the INVITE; else a new auxiliary session gets it |
| Listener.BrokerListener.ProcessOrchestratedSession | ra/src/main/java/pl/ovoo/slee/resource/sip/broker/service/SipMessageListener.java:192-202 | an existing session gets the event; else a session from the Route data, or 400 when missing |
| Listener.BrokerListener.ProcessInvite | ra/src/main/java/pl/ovoo/slee/resource/sip/broker/service/SipMessageListener.java:149-160 | auxiliary and orchestrated INVITEs go their own ways |
| Listener.BrokerListener.ProcessOptionsRequest | ra/src/main/java/pl/ovoo/slee/resource/sip/broker/service/SipMessageListener.java:127-146 | a non-SIP URI gets 400; an existing user ignored; else a ping session gets it |
| Listener.BrokerListener.ProcessCommonDialogRequest | ra/src/main/java/pl/ovoo/slee/resource/sip/broker/service/SipMessageListener.java:113-125 | delivered to the dialog session; no dialog or data is a RuntimeFault |
| Listener.BrokerListener.ProcessRequest | ra/src/main/java/pl/ovoo/slee/resource/sip/broker/service/SipMessageListener.java:93-111 | INVITE, OPTIONS and others each on their path |
| Listener.BrokerListener.ProcessResponse | ra/src/main/java/pl/ovoo/slee/resource/sip/broker/service/SipMessageListener.java:230-251 | retransmissions dropped; else delivered; missing data is a RuntimeFault |
| Listener.BrokerListener.ProcessTimeout | ra/src/main/java/pl/ovoo/slee/resource/sip/broker/service/SipMessageListener.java:254-276 | without data dropped; else delivered |
| Listener.BrokerListener.ProcessDialogEvent | ra/src/main/java/pl/ovoo/slee/resource/sip/broker/service/SipMessageListener.java:285-322 | delivered to the dialog session; missing data is a RuntimeFault |
| Listener.BrokerListener.ProcessEvent | ra/src/main/java/pl/ovoo/slee/resource/sip/broker/service/SipMessageListener.java:93-322 | no session is dropped or replaced, at most one event queued, the only fault a RuntimeFault; only requests change anything |

## Left out

- Real I/O: the stack, message factories, logging, SLEE usage counters and the thread pool. The stack is the `Net` oracle. A message is a value holding its method or status, its CSeq and its routes; headers are modelled only where the broker's logic reads them.
- The choice between the internal and the external service provider (`SipBrokerContext`): every send goes to the one `Net`.
- Concurrency: `SessionTasksImpl.enqueueAndExecute` is `synchronized`, and its status is an atomic reference. The model runs each operation atomically and returns `submit` instead of calling the executor.
- `OrchestratedService` synchronisation is left out for the same reason.
- `createForwardedResponse`, `createForwardedReliableResponse`, `createOnDialogRequest`, `createAck`, `createOptionsRequest`, `createImScfRouteHeader` and `createBrokerContactHeader` build JAIN SIP objects. A relayed message is modelled by its method or status only. The header rules these builders share are modelled in `CopyResponseHeaders`, `CopyRequestHeaders` and `CopyAckHeaders`.
- Header and parameter names are compared exactly. JAIN SIP compares them case-insensitively; the `100rel` option tag is the one case-insensitive comparison modelled.
- Call-IDs, transaction ids and dialog ids come from a counter in `Net`, with `"broker-"` plus a number as Call-ID. A dialog's Call-ID, needed by `AuxiliarySession.checkDialogAndRemoveSession`, is a function parameter `callIdOf`.
- Auxiliary.IsRetransmission: a request without a Via header compares as "no branch" instead of raising a NullPointerException.
- Ping.PingSession.ParseUri: a SIP URI whose user part is null is modelled as an empty user part (the source would raise a NullPointerException).
- The key order of the ping alias map (`Ping.Below`) is `String.compareTo` on the characters of the model's strings; UTF-16 surrogate pairs are not modelled.
- Listener.ReadHeaderInfo: every Route URI has parameters in the model. In the source, a URI that is neither SIP nor TEL fails the cast to `Parameters` with a ClassCastException.
- An unknown service key is not modelled. There `getRulesForKey` returns null, and the new session fails when it loads its handlers. Sessions are always created with a ruleset; a ruleset without services or endpoints is the failure `Context.SessionContext.Load` reports.
- Listener.BrokerListener.ProcessOrchestratedSession: the session a new INVITE creates is recorded as its creation data (`SessionKind`), not as a running `OrchestratedSession` object; `Fsm.OrchestratedSession` models the session itself.
- StateBase.WalkLegs: the walk of `disconnectAllDialogsOnError` carries a step bound equal to the number of handlers. On a chain that is not well formed and loops without reaching an IM-SCF leg, the source would loop forever; the model stops with a RuntimeFault instead.
- StateBase.TearDownLeg: applies the corrected teardown rule (`TeardownOf`, see Findings). An INVITED leg becomes SET_TO_CANCEL; the source only logs the mark and leaves the leg INVITED. The rule as written is `TeardownAsWritten`, and the model states what it leaves open only in `InvitedLegLeftOpen`.
- StateBase.WalkLegs: an INVITED AS on the walk is torn down by the same corrected rule, not left INVITED as in the source.
- StateBase.DisconnectAllDialogsOnError: an INVITED AS or B leg ends in SET_TO_CANCEL under the corrected rule. The source leaves it INVITED.
- StateBase.HandleInternalError: tears the dialogs down through `DisconnectAllDialogsOnError`, so it too applies the corrected rule to INVITED legs.
- StateBase.PreprocessInvite: retransmission detection looks up the session context's `initialInviteVias`, a map fixed when the context is created. The store behind `findInitialInviteLastVia`, and the code that fills it, are not part of this model. An INVITE stored there after the context was created is not recognised as a retransmission.
- Every request has a Max-Forwards value in the model. A request that arrives without one is not modelled; there, the 70 that `createInvite` sets would stay.
- Chaining.ContinueSetup: skipping carries the same kind of bound. `SkipOnChain` and `ChainFits` show it is never reached on a well-formed chain.
- Handlers.Handler.ProcessOutgoingInvite: the Call-ID is the fresh `"broker-"` number, not the stack's generated one, and the request URI rewriting by JAIN SIP is not modelled.
- Mailbox.SessionTasks.Run: assumes every hand-over to the session returns. When the handler instead throws an unchecked exception (a RuntimeFault escaping Fsm.OrchestratedSession.HandleNextEvent or Auxiliary.AuxiliarySession.HandleNextEvent), `run()` (SessionTasksImpl.java:89-97) ends with the status still RUNNING and the rest of the queue unhandled; every later `enqueueAndExecute` (lines 55-66) then only appends, because the status is not EMPTY, so no drain task is submitted again and the mailbox stays stuck for good.
- Fsm.HandleEvent: `processIOException` and `processTransactionTerminated` only log, and the model treats them as events that change nothing.
- `SipBrokerResourceAdaptor`, `OrchestrationConfig` loading and `BrokerConfiguration` are not part of this model. The ruleset and the service map are given as values.
- `SessionStateBase.sendTryingResponse` and `sendRequestTerminatedResponse` are folded into the callers that send 100 and 487. `createErrorResponse` and `createNewResponse` become a response value with the status.

## Findings

| source | as written | input that shows it | evidently intended | confidence | as-written member | corrected member |
|---|---|---|---|---|---|---|
| ra/src/main/java/pl/ovoo/slee/resource/sip/broker/service/sessionfsm/SessionStateBase.java:701-703, 730-731 | During error teardown, `disconnectAllDialogsOnError` only logs "Mark as SET TO CANCEL" for an INVITED leg. The leg keeps state INVITED. | An internal error while an AS (or the B leg) is INVITED; that leg later answers 200 OK. In InternalErrorState, only a leg in SET_TO_CANCEL is released by its response, so the answered dialog is never closed with BYE. | The INVITED leg becomes SET_TO_CANCEL, so that its first response is met with CANCEL or BYE. | not executed | StateBase.InvitedLegLeftOpen | StateBase.TeardownReleases |
