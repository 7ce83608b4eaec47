# Verified model of libeXosip2 and josua

This project models the parts of libeXosip2 2.2.3 and of its softphone josua that keep state or
transform data, and proves what they promise for every input and every run.

* **Context store** (`ContextStore`, `ContextAccounting`, `ContextRuns`, `ContextInvariants`,
  `ContextSafety`, `ContextHistory`, `ContextRetirement`, `ContextTheorems`, `ContextCreation`,
  `ContextFates`, `ContextOutcomes`, `ContextPublications`, `ContextWitnesses`, `ContextObject`, with
  `Sip`): calls, outgoing and incoming subscriptions, publications, their dialogs and the SIP transactions they
  own. API calls, requests from the network, responses, the end of transactions and the release of
  finished calls are steps of one state machine; whatever the application, the network or the oSIP
  stack decides is a parameter of a step. A *measure* counts, over the whole state, the places of a
  transaction, the live records at an address or the holders of an id; every step is shown to move
  every measure by an explained amount, and the run theorems are instances of that. `ContextHistory`
  tells from the state before a step which BYE it sends and which transaction it misplaces,
  `ContextCreation` which transaction it creates; `ContextFates`, `ContextOutcomes` and
  `ContextPublications` say what becomes of the records it is about, and that the others stay.
  `ContextObject` is the store as an object that is searched and changed in place, with a method that
  runs any sequence of steps and promises the theorems of its fields.
* **Registrations** (`Registration`, `RegistrationTheorems`, `RegistrationPeriods`,
  `RegistrationPlaces`, `RegistrationObject`): building, sending, refreshing and retrying REGISTER.
* **Option parser** (`Getopt`, `GetoptTheorems`, `GetoptParser`): the scanner that permutes its
  argument array in place.
* **IPv6 printer** (`Ipv6Text`, `Ipv6Printer`), inverted by a reader written from section 2.2 of
  RFC 4291.
* **G.711 and the send queue** (`G711`, `G711Theorems`, `SendQueue`).
* **Call table** (`CallTable`), **SDP** (`Sdp`, `SdpAnswer`) and **presence** (`Presence`) of josua.

`Wrappers`, `Sequences` and `Text` hold shared definitions. `dafny verify dfyconfig.toml` checks the
whole project.

## Where the code does less than one might expect

Each of these is stated exactly, with a concrete run or input for the failing side.

* A dialog can receive more than one BYE. Every BYE is a hangup, a request of the application with
  that method, or the retry of a challenged BYE (`ByesExplained`); a dialog receives at most one if and
  only if no two steps of the run send it one (`AtMostOneBye`). Hangups alone are at most one
  (`HungUpOnce`), so a dialog whose BYEs the application neither sends itself nor retries gets at most
  one (`OneByeByHangup`). Two runs reach two BYEs, one with a challenge and one without
  (`ChallengedByeIsResent`, `RequestedByeThenHangup`).
* When a dialog dies, its id is never found again (until the counter starts over) if and only if the
  step is not a failed replacement: a 2xx from another party from which no dialog can be built frees
  the dialog without an update (`DeathRetiresId`, `FailedReplacementIsFound`); then the id is found
  until the next update (`ReplacedUntilUpdate`).
* Transactions are conserved if and only if no step misplaces one: a CANCEL that cannot be answered
  loses its own transaction and puts the INVITE in two places, a CANCEL whose INVITE cannot be
  answered does the latter, and a first NOTIFY for which no dialog can be built is lost
  (`TransactionsConserved`, `CancelMisplaces`, `NotifyMisplaces`).
* An initial INVITE is resent at most four times between two 2xx responses, and four is reached
  (`ResendsBounded`, `FourResends`): a SUBSCRIBE sent inside the call confirms the early dialog, and
  one resend is then charged to the dialog. Before the first 2xx, or without such a SUBSCRIBE, the
  bound is three (`ResendsBoundedBeforeSuccess`, `ResendsBoundedWithoutSubscribe`).
* A request within a call is refused exactly while the last transaction of its method, of either
  direction, is open (`CallRequestFate`); an older one may be open still (`OlderRequestStaysOpen`).
* Ids are unique until the counter starts over; afterwards two calls can share one
  (`SharedIdAfterWrap`).
* _sdp_hold_call leaves a stream without a direction as it is when another stream has one
  (`HoldMakesSendOnly` gives the exact condition, `HoldMissesBareStream` an example).
* An audio stream is answered as RTP/AVP whatever protocol was offered: an answer keeps the protocol of
  a stream if and only if the stream is not audio or was offered so (`ProtocolKept`,
  `SecureAudioAnsweredPlain`).
* A contact that contains "open" or "closed" can change the status a presence document is read as;
  `PrintThenScan` gives the result for every contact, `StatusSurvives` the exact condition, and
  `ClosedContact` and `OpenContact` an example each.
* mu-law code 0x7f, negative zero, comes back as 0xff (`MulawCodes`).
* A draft that is sent while a finished REGISTER is still r_last_tr overwrites it, and that one is kept
  nowhere; no REGISTER is lost otherwise (`RegistersConserved`, `DraftOverwrites`).
* The refresh timer keeps a registration alive when polled every 59 s; at 60 s it can reach its
  period (`LapsesAtSixty`).

## Model

| member | source | states |
|---|---|---|
| ContextFates.TerminateFate | libeXosip2-2.2.3/src/eXcall_api.c:949-1095 | eXosip_call_terminate creates one CANCEL, outside of every dialog, exactly while the last outgoing INVITE of the call or dialog rings, and ends the named dialog; otherwise one BYE in a live dialog, which ends; otherwise nothing changes |
| ContextFates.TerminatedIdUnknown | libeXosip2-2.2.3/src/eXcall_api.c:1006-1011 | after any run, the id of a live dialog ended by CANCEL or BYE is found by no lookup in any continuation until the counter starts over |
| ContextFates.RequestFate | libeXosip2-2.2.3/src/udp.c:1152-1256 | a request in a live dialog of a call: the first well formed BYE ends the dialog, which keeps the transaction; another request is kept by the dialog if and only if no BYE went either way, it is well formed, no SUBSCRIBE, and an INVITE finds none open; every other request is only kept until it ends |
| ContextFates.RemoteByeIdUnknown | libeXosip2-2.2.3/src/udp.c:182-218 | after any run, the id of a live dialog whose remote party sends its first BYE is found by no lookup until the counter starts over |
| ContextWitnesses.RingingIsCancelled | libeXosip2-2.2.3/src/eXcall_api.c:979-1012 | a ringing call terminated with and without its early dialog |
| ContextCreation.StepCreates | libeXosip2-2.2.3/src/eXcall_api.c:39-93 | every step creates exactly the transaction, of the method and direction, that the state before it decides, numbered in order, and no other |
| ContextCreation.TransactionsExplained | libeXosip2-2.2.3/src/udp.c:1064-1110 | over every run the transactions of a method and direction are as many as the steps that create one; outgoing CANCELs among them |
| ContextOutcomes.CallRequestFate | libeXosip2-2.2.3/src/eXcall_api.c:542-634 | a request of the application joins its dialog unless the last transaction of its method, the younger of the newest of each direction, is open |
| ContextWitnesses.OlderRequestStaysOpen | libeXosip2-2.2.3/src/eXcall_api.c:578-605 | a run in which a request is accepted while an older one of its method is open |
| ContextOutcomes.InitialFate | libeXosip2-2.2.3/src/eXcall_api.c:267-300 | an initial INVITE or SUBSCRIBE is the outgoing slot of a new record without dialogs |
| ContextOutcomes.IncomingFate | libeXosip2-2.2.3/src/udp.c:657-729 | an incoming INVITE or SUBSCRIBE is the incoming slot of a new record with one early dialog; unanswered it leaves an empty call, or nothing |
| ContextOutcomes.ProvisionalFate | libeXosip2-2.2.3/src/jcallback.c:818-966 | a 1xx above 100 to an INVITE or SUBSCRIBE opens one early dialog when none is on record and one can be built; any other 1xx changes no record |
| ContextOutcomes.ResponseDialogLaw | libeXosip2-2.2.3/src/jcallback.c:818-966 | the dialog of a response: the first at the recorded address, else, for a SUBSCRIBE, the one with its tag |
| ContextOutcomes.SuccessFate | libeXosip2-2.2.3/src/jcallback.c:968-1268 | a 2xx confirms the live dialog on record, or ends it when it cannot be replaced, or opens a confirmed one; a last 2xx to a NOTIFY ends the record; nothing else but counters changes |
| ContextOutcomes.SuccessResets | libeXosip2-2.2.3/src/jcallback.c:1213-1220 | a 2xx gives a call or an outgoing subscription all its credential retries back |
| ContextOutcomes.FailureFate | libeXosip2-2.2.3/src/jcallback.c:1270-1300 | a negative final response ends the early dialog of its INVITE or SUBSCRIBE and nothing else |
| ContextOutcomes.AnswerFate | libeXosip2-2.2.3/src/eXcall_api.c:801-947 | an answer of the application confirms the dialog exactly for a 2xx to the pending INVITE or SUBSCRIBE of a live dialog |
| ContextOutcomes.AnswerSentFate | libeXosip2-2.2.3/src/jcallback.c:1717-1850 | a negative answer that leaves ends the early dialog of its request |
| ContextOutcomes.KillFate | libeXosip2-2.2.3/src/jcallback.c:424-538 | the end of a NOTIFY or SUBSCRIBE takes its record off its list exactly when it is unanswered, refused for good, or the subscription is over |
| ContextOutcomes.NotifyFate | libeXosip2-2.2.3/src/udp.c:850-975 | a NOTIFY in a dialog of a subscription is kept by it, ends the record, or is only kept until it ends |
| ContextOutcomes.FirstNotifyFate | libeXosip2-2.2.3/src/udp.c:1367-1403 | a NOTIFY that opens a dialog of a subscription is kept by it, or ends the record |
| ContextOutcomes.SubscribeFate | libeXosip2-2.2.3/src/udp.c:824-848 | a SUBSCRIBE in a dialog of an incoming subscription is kept by it when the one before is answered |
| ContextOutcomes.ChallengeFate | libeXosip2-2.2.3/src/eXosip.c:262-291 | a challenged request of a call is sent again while its counter allows, which goes up by one; an initial INVITE replaces the old one and costs the dialog |
| ContextOutcomes.RedirectFate | libeXosip2-2.2.3/src/eXosip.c:293-311 | a redirected INVITE is sent again in the same way without a counter |
| ContextOutcomes.SubscribeChallengeFate | libeXosip2-2.2.3/src/eXosip.c:313-340 | a challenged SUBSCRIBE replaces the initial one, whose dialogs stay, or joins its dialog |
| ContextOutcomes.UncountedChallengeFate | libeXosip2-2.2.3/src/eXosip.c:358-376 | a challenged NOTIFY joins its dialog, a challenged request outside of every context the garbage list, without a counter |
| ContextOutcomes.RefreshFate | libeXosip2-2.2.3/src/eXsubscription_api.c:246-305 | a refresh joins its dialog exactly when the last SUBSCRIBE is answered |
| ContextOutcomes.NotifyRequestFate | libeXosip2-2.2.3/src/eXinsubscription_api.c:378-436 | a request of an incoming subscription joins its dialog exactly when the last outgoing NOTIFY is answered |
| ContextOutcomes.TimedRefreshFate | libeXosip2-2.2.3/src/eXosip.c:459-500 | a timed refresh repeats the last request of a live dialog, or replaces the initial SUBSCRIBE, once that was answered |
| ContextOutcomes.CancelledLaw | libeXosip2-2.2.3/src/udp.c:463-540 | which INVITE a CANCEL is about, and the dialog it is reported with |
| ContextOutcomes.CancelledFate | libeXosip2-2.2.3/src/udp.c:463-613 | an answered CANCEL is kept by the dialog its INVITE was reported with, else only until it ends |
| ContextOutcomes.FreedFate | libeXosip2-2.2.3/src/udp.c:2266-2288 | a transaction of the garbage list is freed exactly when it is over or older than 180 s |
| ContextOutcomes.StuckFate | libeXosip2-2.2.3/src/misc.c:33-86 | only a BYE or REFER is taken off its dialog, once, for the garbage list |
| ContextOutcomes.ReleaseFate | libeXosip2-2.2.3/src/udp.c:1998-2035 | a released call, or dialog, leaves its list and no other record changes |
| ContextPublications.PublishFate | libeXosip2-2.2.3/src/eXpublish_api.c:83-168 | after eXosip_publish one publication has the address and the new transaction; those expired for a minute are gone, the others stay |
| ContextPublications.OnePublication | libeXosip2-2.2.3/src/jpublish.c:60-94 | after any run no two publications are for the same address, compared without regard to case |
| ContextTheorems.TransactionsConserved | libeXosip2-2.2.3/src/udp.c:462-618 | after a run each transaction ever created occurs exactly once in the list of all places (context slots, dialog lists, publications, garbage list, freed transactions), and nothing else occurs, if and only if no step of the run misplaced one |
| ContextTheorems.TransactionsAccounted | libeXosip2-2.2.3/src/jdialog.c:186-219 | over every run the places of a transaction are one, less the recorded loss, plus the recorded second entries; replacing, retrying, redirecting and freeing lose and duplicate none |
| ContextHistory.StepLog | libeXosip2-2.2.3/src/udp.c:1367-1403 | every step adds to the record of BYEs, losses and second entries exactly what the state before it decides |
| ContextWitnesses.CancelMisplaces | libeXosip2-2.2.3/src/udp.c:557-571 | a CANCEL that cannot be answered leaves its INVITE in two places and its own transaction in none |
| ContextWitnesses.NotifyMisplaces | libeXosip2-2.2.3/src/udp.c:1374-1381 | a first NOTIFY without a dialog is in no place |
| ContextTheorems.ByesExplained | libeXosip2-2.2.3/src/eXcall_api.c:542-634 | over every run the BYEs sent for a dialog are its hangups, the application's own and the credential retries, and the hangups are those of eXosip_call_terminate |
| ContextTheorems.AtMostOneBye | libeXosip2-2.2.3/src/eXcall_api.c:949-1095 | over every run a dialog receives at most one BYE if and only if no two steps send it one, and none if and only if no step does |
| ContextTheorems.OneByeByHangup | libeXosip2-2.2.3/src/eXcall_api.c:949-1095 | a dialog whose BYEs the application neither sends itself nor retries receives at most one |
| ContextTheorems.HungUpOnce | libeXosip2-2.2.3/src/eXcall_api.c:1064-1095 | over every run the BYEs of eXosip_call_terminate for a dialog plus its liveness never exceed one |
| ContextWitnesses.ChallengedByeIsResent | libeXosip2-2.2.3/src/eXcall_api.c:1445-1611 | a run in which one hangup puts two BYEs in a dialog |
| ContextWitnesses.RequestedByeThenHangup | libeXosip2-2.2.3/src/eXcall_api.c:542-634 | a run without any challenge in which a dialog receives two BYEs |
| ContextTheorems.DeathRetiresId | libeXosip2-2.2.3/src/jcallback.c:1015-1064 | whatever step kills a live dialog (BYE, CANCEL, failed early dialog, received BYE, teardown), its id is found by no lookup in any continuation until the counter starts over, if and only if the step is not a failed replacement |
| ContextTheorems.ReplacedUntilUpdate | libeXosip2-2.2.3/src/eXosip.c:868-879 | in the remaining case the id is found by no lookup once eXosip_update has run |
| ContextRetirement.TidyStep | libeXosip2-2.2.3/src/jcallback.c:1015-1064 | every step but a failed replacement leaves no dead dialog with the id |
| ContextRetirement.UpdateIdentifies | libeXosip2-2.2.3/src/eXosip.c:847-923 | after an update every context has a positive id, and a dialog has one exactly when its oSIP dialog is live |
| ContextWitnesses.FailedReplacementIsFound | libeXosip2-2.2.3/src/jcallback.c:1040-1052 | a run of three steps after which a dead dialog is found by its id |
| ContextTheorems.ResendsBoundedBeforeSuccess | libeXosip2-2.2.3/src/eXosip.c:262-291 | before the first 2xx within the call an initial INVITE is resent at most three times, whatever is sent inside it |
| ContextObject.RunAll | libeXosip2-2.2.3/src/eXosip.c:444-525 | the object, run through any sequence of steps by its own searches and in-place changes, ends in the state of the run; its transactions are accounted for, its ids unique below the counter, its retry counters in 0..3, its resends bounded, no dialog hung up twice, as many transactions of each method and direction as steps that create one, and no two publications for one address |
| ContextObject.SweepLists | libeXosip2-2.2.3/src/jpublish.c:60-94 | the loop takes exactly the publications expired for more than 60 s off the list, keeps the order of the others, and saves their transactions |
| ContextObject.RemoveFrom | libeXosip2-2.2.3/src/misc.c:33-86 | the loop takes the first entry of a transaction off a list |
| RegistrationPlaces.RegistersConserved | libeXosip2-2.2.3/src/eXregister_api.c:337-397 | after any run each REGISTER ever sent is kept in one place, r_last_tr or j_transactions, if and only if no draft was sent while a finished REGISTER was still r_last_tr |
| RegistrationPlaces.DraftOverwrites | libeXosip2-2.2.3/src/eXregister_api.c:387 | a run of three steps after which an answered REGISTER is kept nowhere |
| RegistrationPlaces.StepProgress | libeXosip2-2.2.3/src/eXregister_api.c:337-397 | a REGISTER changes only by a response while it is unfinished, which is recorded and ends it when final, and by its end |
| RegistrationPlaces.StepRetry | libeXosip2-2.2.3/src/eXosip.c:240-260 | a credential retry costs one of three, sent or not; a 2xx to r_last_tr gives them back; nothing else touches r_retry |
| RegistrationPeriods.PeriodSent | libeXosip2-2.2.3/src/eXregister_api.c:189-197 | over every run each REGISTER asks for the period in force when it was sent, or, sent from a draft, when the draft was built |
| RegistrationPeriods.StepSends | libeXosip2-2.2.3/src/eXregister_api.c:337-397 | every step sends exactly the REGISTER that the state before it decides, behind those sent before: successor of the finished last one, or first of a new Call-ID, when asked for, due, or challenged |
| RegistrationPeriods.StepPeriod | libeXosip2-2.2.3/src/eXregister_api.c:308-317 | the period changes only by a build, to the clamped one, and by a removal, to 0 |
| RegistrationPeriods.DraftAsks | libeXosip2-2.2.3/src/eXregister_api.c:293-335 | a build hands out at most one draft, which asks for the clamped period |
| RegistrationPeriods.ClampNearest | libeXosip2-2.2.3/src/eXregister_api.c:309-315 | 0 stays 0, any other period becomes the nearest from 200 to 3600 |
| RegistrationTheorems.CSeqsConsecutive | libeXosip2-2.2.3/src/eXregister_api.c:61-225 | over every run the k-th REGISTER sent with a Call-ID has CSeq k |
| RegistrationTheorems.CSeqsNotRepeated | libeXosip2-2.2.3/src/eXregister_api.c:61-225 | over every run later REGISTERs of a Call-ID have larger CSeqs, so none is repeated |
| RegistrationTheorems.RegisterRetriesBounded | libeXosip2-2.2.3/src/eXosip.c:240-260 | over every run r_retry stays in 0..3, and the number of retries since the last 2xx in 0..r_retry |
| RegistrationObject.RunAll | libeXosip2-2.2.3/src/eXregister_api.c:61-397 | the object, run through any sequence of builds, sends, refreshes, retries and responses, has at most one unfinished REGISTER, the last one, consecutive CSeqs per Call-ID and a retry counter in 0..3 |
| RegistrationObject.Registrar.Make | libeXosip2-2.2.3/src/eXregister_api.c:61-225 | the new registration and the message, or the failure, for every outcome outside; code 0 exactly with a message |
| RegistrationObject.Registrar.BuildNext | libeXosip2-2.2.3/src/eXregister_api.c:293-335 | the period is clamped also when the call then refuses |
| RegistrationObject.Registrar.SendRegister | libeXosip2-2.2.3/src/eXregister_api.c:337-397 | returns 0 exactly when one more REGISTER was sent |
| Sdp.HoldMissesBareStream | libeXosip2-2.2.3/josua/sdptools.c:266-320 | hold leaves a bare stream beside a directed one sending and receiving |
| Presence.ClosedContact | libeXosip2-2.2.3/josua/jsubscriptions.c:115-166 | a busy party at a contact with "closed" is read as closed |
| Presence.OpenContact | libeXosip2-2.2.3/josua/jsubscriptions.c:115-166 | a closed party at a contact with "open" is read as online |
| ContextTheorems.IdsUnique | libeXosip2-2.2.3/src/eXosip.c:847-923 | until the counter starts over, a positive id has at most one holder among all calls, subscriptions, notifications and dialogs, and none at or above the counter |
| ContextTheorems.FindersReturnTheHolder | libeXosip2-2.2.3/src/jdialog.c:36-86 | each finder returns the only holder of an id, also the one that accepts the id of a subscription or of its dialog, and finders for the other kind of record return nothing |
| ContextTheorems.IdsStable | libeXosip2-2.2.3/src/eXosip.c:860-879 | in no continuation of a run does a live record hold another id than the one it has |
| ContextTheorems.DeadStaysDead | libeXosip2-2.2.3/src/jcallback.c:1015-1064 | a dialog that lost d_dialog, or a record that was freed, is live in no continuation of the run |
| ContextTheorems.RetiredIdNotFound | libeXosip2-2.2.3/src/jdialog.c:36-86 | an id below the counter that nobody holds is found by no lookup in any continuation, until the counter starts over |
| ContextTheorems.RetriesBounded | libeXosip2-2.2.3/src/eXosip.c:262-340 | over every run the retry counters of contexts and dialogs stay in 0..3 |
| ContextTheorems.ResendsBounded | libeXosip2-2.2.3/src/eXosip.c:262-291 | over every run an initial INVITE is resent with credentials at most four times between two 2xx responses, early dialogs created and deleted in between included |
| ContextTheorems.ResendsBoundedWithoutSubscribe | libeXosip2-2.2.3/src/jcallback.c:1480-1490 | at most three times when no SUBSCRIBE is sent inside a call |
| ContextWitnesses.FourResends | libeXosip2-2.2.3/src/eXosip.c:262-291 | a run of twelve steps in which an INVITE is resent four times |
| ContextWitnesses.SharedIdAfterWrap | libeXosip2-2.2.3/src/eXosip.c:857-858 | after 100001 calls two of them have id 1 and the lookup finds the younger |
| ContextRuns.StepAccounts | libeXosip2-2.2.3/src/jdialog.c:186-219 | every step of the machine accounts for every measure: transactions placed once and never lost, records never revived, ids never handed out twice |
| ContextRuns.RunAccounts | libeXosip2-2.2.3/src/eXosip.c:444-525 | the same for every run |
| ContextSafety.SolidStep | libeXosip2-2.2.3/src/jcallback.c:818-1268 | every step keeps the invariant on counters, initial INVITEs and the dialogs their transactions know |
| ContextSafety.SafeRun | libeXosip2-2.2.3/src/jcallback.c:818-1268 | every run keeps it, and no two places hold the same transaction |
| ContextAccounting.AccountsFreeContext | libeXosip2-2.2.3/src/jcall.c:87-119 | freeing a context moves each of its transactions to the garbage list, loses none and revives nothing |
| ContextAccounting.AccountsUpdate | libeXosip2-2.2.3/src/eXosip.c:847-923 | an update hands out only ids between the counter before and after it |
| ContextObject.Store.UpdateIds | libeXosip2-2.2.3/src/eXosip.c:847-923 | the nested loops over three lists compute the recursive numbering |
| ContextObject.NumberDialogs | libeXosip2-2.2.3/src/eXosip.c:868-879 | the loop over one list of dialogs does |
| ContextObject.NumberContexts | libeXosip2-2.2.3/src/eXosip.c:861-880 | the loop over one list of contexts does |
| ContextObject.Store.Drain | libeXosip2-2.2.3/src/jdialog.c:189-197 | emptying a list from the front puts it reversed on the garbage list and clears each jinfo |
| ContextObject.Store.DialogFree | libeXosip2-2.2.3/src/jdialog.c:186-219 | both lists drained, ids updated |
| ContextObject.Store.ContextFree | libeXosip2-2.2.3/src/jcall.c:87-119 | the dialogs freed one by one, then the two slots; the only change besides the removal |
| ContextObject.FindById | libeXosip2-2.2.3/src/jcall.c:30-42 | the first context with the id |
| ContextObject.FindDialogById | libeXosip2-2.2.3/src/jdialog.c:36-66 | the first dialog with the id, in list order |
| ContextObject.FindSubscriptionById | libeXosip2-2.2.3/src/jdialog.c:68-86 | the first record whose own id or dialog id matches |
| ContextObject.TransactionFind | libeXosip2-2.2.3/src/eXcall_api.c:123-175 | the owner of a transaction; a slot is reported with the first dialog |
| ContextObject.FindLast | libeXosip2-2.2.3/src/misc.c:135-163 | the most recent transaction of a method |
| RegistrationTheorems.OneUnfinished | libeXosip2-2.2.3/src/eXregister_api.c:337-397 | over every run at most one REGISTER is unfinished, and it is r_last_tr |
| RegistrationTheorems.DerivedFromFinished | libeXosip2-2.2.3/src/eXregister_api.c:61-225 | over every run a REGISTER that is not the first of its Call-ID follows one with the CSeq before, which is over |
| RegistrationTheorems.StepKeeps | libeXosip2-2.2.3/src/eXregister_api.c:293-397 | every build, send, refresh, retry and response keeps the invariant, failures outside included |
| RegistrationTheorems.NeverLapses | libeXosip2-2.2.3/src/eXosip.c:501-524 | answered 2xx within 120 s and polled every 59 s, a registration of 200 to 3600 s is at all times younger than its period and than 960 s, and the REGISTER in force asked for that period |
| RegistrationTheorems.LapsesAtSixty | libeXosip2-2.2.3/src/eXosip.c:501-524 | polled every 60 s it can reach its period |
| GetoptParser.ParseCommandLine | libeXosip2-2.2.3/josua/pplgetopt.c:273-382 | the pairs of a whole run are those of one left-to-right scan of the original arguments; when it ends in EOF the array is the program name, the taken arguments, the operands, the tail, with ind after the taken ones |
| GetoptTheorems.CallsAgree | libeXosip2-2.2.3/josua/pplgetopt.c:273-382 | from every state the calls until the first failure agree with the scan of what is left, in results, final state and kind of end |
| GetoptTheorems.ScanPartition | libeXosip2-2.2.3/josua/pplgetopt.c:223-251 | taken arguments and operands interleave to the arguments before the tail, each in its order; operands are no options; a tail only follows "--" or, without interleaving, the first operand |
| GetoptTheorems.ScanWritten | libeXosip2-2.2.3/josua/pplgetopt.c:303-378 | any command line written from long and short options in all their forms and operands scans back to exactly those |
| Getopt.CallProgress | libeXosip2-2.2.3/josua/pplgetopt.c:273-382 | (arguments left, letters left) falls lexicographically on every success, so a run ends |
| GetoptParser.Parser.GetoptLong | libeXosip2-2.2.3/josua/pplgetopt.c:273-382 | the object after a call, and its result, for every state, errors included |
| GetoptParser.Parser.Permute | libeXosip2-2.2.3/josua/pplgetopt.c:223-251 | the arguments just read move in front of those skipped |
| GetoptParser.Exchange | libeXosip2-2.2.3/josua/pplgetopt.c:235-246 | three reversals exchange two neighbouring blocks |
| GetoptParser.Reverse | libeXosip2-2.2.3/josua/pplgetopt.c:209-221 | the block is mirrored, everything else untouched |
| GetoptParser.Parser.ParseAll | libeXosip2-2.2.3/josua/pplgetopt.c:273-382 | a loop of calls computes the run |
| GetoptParser.Parser.constructor | libeXosip2-2.2.3/josua/pplgetopt.c:101-129 | the initial state, an empty argument array included |
| Ipv6Printer.Ntop6 | libeXosip2-2.2.3/src/inet_ntop.c:147-247 | every address that fits is printed with the one leftmost longest zero run left out, reads back as itself, has a dot exactly for an embedded IPv4 address, and takes at most 39 characters; 40 bytes always suffice |
| Ipv6Printer.RenderDotted | libeXosip2-2.2.3/src/inet_ntop.c:221-228 | the dotted form is printed exactly for ::d.d.d.d with a non-zero first half and ::ffff:d.d.d.d |
| Ipv6Printer.RenderLower | libeXosip2-2.2.3/src/inet_ntop.c:229 | nothing is printed in upper case |
| Ipv6Printer.RenderReads | libeXosip2-2.2.3/src/inet_ntop.c:147-247 | whatever zero run is left out, the section 2.2 reader gives the address back |
| Ipv6Printer.RenderLength | libeXosip2-2.2.3/src/inet_ntop.c:147-247 | at most 39 characters, embedded IPv4 forms included |
| Ipv6Printer.FindBest | libeXosip2-2.2.3/src/inet_ntop.c:177-202 | the run found is the leftmost longest of length two or more, or there is none |
| Ipv6Printer.Format | libeXosip2-2.2.3/src/inet_ntop.c:204-234 | the character loop writes the groups before the gap, "::", and the groups behind it |
| Ipv6Printer.ReadWords | libeXosip2-2.2.3/src/inet_ntop.c:173-176 | the words of the sixteen bytes |
| Ipv6Printer.Ntop4 | libeXosip2-2.2.3/src/inet_ntop.c:122-139 | the dotted text if it is not longer than the size, and its reading back |
| G711Theorems.AlawWord | libeXosip2-2.2.3/josua/sound_conv.c:53-81 | every bit of the A-law code of every sample: sign, segment and step of its decision interval, the even bits inverted |
| G711Theorems.MulawWord | libeXosip2-2.2.3/josua/sound_conv.c:135-164 | every bit of the mu-law code: sign, segment and step of the biased magnitude, all bits inverted |
| G711Theorems.CellsCover | libeXosip2-2.2.3/josua/sound_conv.c:12-31 | the decision intervals of both laws cover every sample |
| G711Theorems.SilenceWords | libeXosip2-2.2.3/josua/sound_conv.c:53-81 | silence is 0xd5 and 0xff |
| G711Theorems.AlawCodes | libeXosip2-2.2.3/josua/sound_conv.c:53-103 | A-law: decoding then encoding is the identity on all codes |
| G711Theorems.MulawCodes | libeXosip2-2.2.3/josua/sound_conv.c:135-190 | mu-law: the identity but for 0x7f, which becomes 0xff |
| G711Theorems.AlawError | libeXosip2-2.2.3/josua/sound_conv.c:53-103 | within 8 below 256, otherwise within 1/32 of the sample and half a step of its segment |
| G711Theorems.MulawError | libeXosip2-2.2.3/josua/sound_conv.c:135-190 | within (abs(x) + 132) / 32 up to 32635 |
| G711Theorems.AlawMonotone | libeXosip2-2.2.3/josua/sound_conv.c:53-103 | the A-law quantiser is monotone |
| G711Theorems.MulawMonotone | libeXosip2-2.2.3/josua/sound_conv.c:135-190 | the mu-law quantiser is monotone |
| G711Theorems.AlawQuantises | libeXosip2-2.2.3/josua/sound_conv.c:53-103 | a sample comes back as the middle of its cell, with its sign |
| G711Theorems.MulawQuantises | libeXosip2-2.2.3/josua/sound_conv.c:135-190 | the same for the biased magnitude |
| G711Theorems.BufferCodes | libeXosip2-2.2.3/josua/sound_conv.c:195-250 | the code identities for buffers of any length |
| G711Theorems.BufferIdempotent | libeXosip2-2.2.3/josua/sound_conv.c:195-250 | a second trip through a codec changes no buffer |
| G711.Segment | libeXosip2-2.2.3/josua/sound_conv.c:12-31 | the segment s with 128 * 2^s <= val < 256 * 2^s, or 0 below 256 |
| SendQueue.Sender.Run | libeXosip2-2.2.3/josua/sound-ucl.c:163-239 | packets sent so far followed by the waiting codes are the encoding of all blocks taken in, in order; at most 799 codes wait; every packet has 160 codes |
| SendQueue.TakesAll | libeXosip2-2.2.3/josua/sound-ucl.c:182-225 | a sending turn takes in every whole sample of its read while less than 640 codes wait, of the reopened file when it ran short, and nothing otherwise |
| SendQueue.NothingSkipped | libeXosip2-2.2.3/josua/sound-ucl.c:163-239 | over every run that sends and receives with reads of at most a packet, everything read is taken in |
| SendQueue.Sender.DoTurn | libeXosip2-2.2.3/josua/sound-ucl.c:179-239 | the same for one turn, which sends at most one packet |
| SendQueue.Sender.SendPacket | libeXosip2-2.2.3/josua/sound-ucl.c:231-239 | the first packet leaves and nothing else changes in the stream |
| SendQueue.EncodeBuffer | libeXosip2-2.2.3/josua/sound_conv.c:209-250 | exactly the target range is overwritten with the codes, also for odd and negative sizes |
| SendQueue.DecodeBuffer | libeXosip2-2.2.3/josua/sound_conv.c:195-235 | exactly the target range is overwritten with the samples |
| CallTable.TypeOfLastEvent | libeXosip2-2.2.3/josua/jcalls.c:195-1496 | over every run a call on the table has the type of the last event about it |
| CallTable.CommandKeeps | libeXosip2-2.2.3/josua/jcalls.c:195-1496 | which calls an event opens, keeps and ends; a failure keeps its call exactly when it is a challenge; never more than ten |
| CallTable.EventTransaction | libeXosip2-2.2.3/josua/jcalls.c:195-1496 | the transaction of a call after each event about it |
| CallTable.CommandWrites | libeXosip2-2.2.3/josua/jcalls.c:195-1496 | the call of the event gets its type, every other call stays as it was |
| CallTable.EventPlays | libeXosip2-2.2.3/josua/jcalls.c:478-1496 | whether a call plays after each event about it |
| CallTable.AbsHas | libeXosip2-2.2.3/josua/jcalls.c:75-91 | with unique keys, the map has a key exactly when a used slot does, and that slot's contents |
| CallTable.AbsSize | libeXosip2-2.2.3/josua/jcalls.c:42-56 | the map is as large as the number of used slots |
| CallTable.Calls.HandleAll | libeXosip2-2.2.3/josua/jcalls.c:195-1496 | over every run of events the slots are the bounded map keyed by (cid, did) at every step, until a call in use is announced as new; free slots never play and sound starts minus closes stay the number of playing slots in any case |
| CallTable.Calls.Handle | libeXosip2-2.2.3/josua/jcalls.c:195-1496 | the same for one event |
| CallTable.Calls.FindCall | libeXosip2-2.2.3/josua/jcalls.c:178-193 | succeeds exactly for 0 <= pos < the pending count, with the used slot that has pos used ones before it |
| CallTable.Calls.Pending | libeXosip2-2.2.3/josua/jcalls.c:42-56 | the number of calls, at most ten |
| CallTable.Calls.New | libeXosip2-2.2.3/josua/jcalls.c:195-476 | one more call, or none when the table is full, the ids are missing or the offer is refused; sound accounts balanced |
| CallTable.Calls.Create | libeXosip2-2.2.3/josua/jcalls.c:93-119 | one more call without a dialog; fails exactly when no slot is free |
| CallTable.Calls.Ack | libeXosip2-2.2.3/josua/jcalls.c:478-608 | the map afterwards; sound started only when not playing |
| CallTable.Calls.Proceeding | libeXosip2-2.2.3/josua/jcalls.c:629-694 | the map afterwards; a call is created when it is unknown |
| CallTable.Calls.Ringing | libeXosip2-2.2.3/josua/jcalls.c:696-896 | the map afterwards, early media included |
| CallTable.Calls.Answered | libeXosip2-2.2.3/josua/jcalls.c:898-1111 | the map afterwards; a modified session closes the sound before it starts anew; the program ends exactly on a new call without either id |
| CallTable.Calls.Modified | libeXosip2-2.2.3/josua/jcalls.c:1314-1496 | the map afterwards, and a refused change that leaves the sound alone |
| CallTable.Calls.Over | libeXosip2-2.2.3/josua/jcalls.c:1148-1195 | the call ends and its sound with it, unless the failure is a challenge |
| CallTable.Calls.Closed | libeXosip2-2.2.3/josua/jcalls.c:1280-1312 | one call with the cid ends, if there is any |
| CallTable.Calls.Remove | libeXosip2-2.2.3/josua/jcalls.c:610-627 | exactly one call ends |
| CallTable.Calls.Free | libeXosip2-2.2.3/josua/jcalls.c:1131-1145 | a free slot never plays, and starts minus closes stays the number of slots that play |
| Sdp.DirectionLaw | libeXosip2-2.2.3/josua/sdptools.c:322-374 | a stream has a direction exactly when it leads the stream's attributes, or the session's when the stream has none, or is both ways when neither has one |
| Sdp.HoldMakesSendOnly | libeXosip2-2.2.3/josua/sdptools.c:266-320 | after hold a stream is SENDONLY if and only if it or the session had a direction or nothing did |
| Sdp.HoldIdempotent | libeXosip2-2.2.3/josua/sdptools.c:266-320 | holding twice is holding once |
| Sdp.OffHoldMakesSendRecv | libeXosip2-2.2.3/josua/sdptools.c:225-264 | after off hold every stream is SENDRECV, held before or not |
| Sdp.Description.HoldCall | libeXosip2-2.2.3/josua/sdptools.c:266-320 | the loops over session and streams compute hold |
| Sdp.Description.OffHoldCall | libeXosip2-2.2.3/josua/sdptools.c:225-264 | the loops compute off hold |
| Sdp.Description.AnalyseAttribute | libeXosip2-2.2.3/josua/sdptools.c:322-374 | the stream's first direction, else the session's, else both ways |
| SdpAnswer.CompleteMessage | libeXosip2-2.2.3/josua/sdptools.c:29-126 | an answer is produced exactly when every offered audio stream lists payload 0 or 8; read back, it answers the offer stream by stream |
| SdpAnswer.AnswerIsRight | libeXosip2-2.2.3/josua/sdptools.c:53-120 | read back, the i-th media line names the i-th offered media, has port 0 if and only if it is not audio, keeps the protocol of a refused stream, and lists for audio exactly the offered 0s and 8s in their order and number |
| SdpAnswer.MapsSay | libeXosip2-2.2.3/josua/sdptools.c:103-108 | the two rtpmap lines describe formats 0 and 8 as table 4 of RFC 3551 does |
| SdpAnswer.ProtocolKept | libeXosip2-2.2.3/josua/sdptools.c:83-118 | the protocol of a stream is kept if and only if it is not audio or was offered as RTP/AVP |
| SdpAnswer.AnswerReads | libeXosip2-2.2.3/josua/sdptools.c:53-120 | read line by line, the answer has one media line per offered stream, in order |
| SdpAnswer.MapsFollowFormats | libeXosip2-2.2.3/josua/sdptools.c:98-110 | each rtpmap line appears if and only if its payload is answered |
| SdpAnswer.MentionsListed | libeXosip2-2.2.3/josua/sdptools.c:103-108 | the substring test finds a payload if and only if it is in the list |
| SdpAnswer.AnswerStream | libeXosip2-2.2.3/josua/sdptools.c:69-118 | the lines of one stream, or a refusal |
| SdpAnswer.CollectPayloads | libeXosip2-2.2.3/josua/sdptools.c:69-82 | exactly the offered 0s and 8s, in order |
| Presence.PrintThenScan | libeXosip2-2.2.3/josua/jinsubscriptions.c:193-308 | for every status and contact, what a printed document is read as |
| Presence.StatusSurvives | libeXosip2-2.2.3/josua/jsubscriptions.c:115-166 | the status comes back if and only if the contact has no effect, has that very status, or opens the document and the status is not closed |
| Presence.PlainContact | libeXosip2-2.2.3/josua/jsubscriptions.c:124-162 | a contact without the words "open" and "closed" has no effect |
| Presence.SetPresenceStatus | libeXosip2-2.2.3/josua/jsubscriptions.c:115-166 | the nested scanning loops compute the recursive scan |

## Left out

- oSIP itself, message generation and parsing, sockets, DNS, threads: their decisions are parameters of the steps (which response arrives, whether a dialog can be built from it, whether a request is valid).
- Contents of the store's requests (CSeq, Via, credentials, bodies), d_STATE, response_auth, local_cseq and the options slots, which the library never fills: they do not decide where a transaction goes.
- Contexts and dialogs are values in sequences that carry an address (`ref`); linked lists and aliasing are not modelled, and a jinfo that points to a freed context is ignored where the library would dereference it.
- A resend for a transaction without a dialog, which dereferences NULL, is modelled as no change.
- Failures to generate a request or to open its transaction in the store's API calls, which return before anything is placed.
- Memory freed twice: a transaction with a second entry in the garbage list may be freed while a context keeps it; the model only counts its places.
- The matching of a CANCEL with its INVITE: which transaction the search finds is a parameter, within the reach of the source's loops.
- The per-dialog call branch of eXosip_automatic_action, which may use a dialog after freeing it; eXosip_default_action is the step instead.
- The guards that decide when a finished call or dialog is released: the model lets a release happen at any time, so the theorems hold for every schedule.
- Retry bounds for NOTIFY and PUBLISH: no counter is consulted there.
- Re-initialising an existing registration, which drops r_last_tr in any state; allocation failures while cloning a REGISTER; removal of old credentials from it; wrap-around of a CSeq beyond 31 bits.
- RegistrationTheorems.CSeqsConsecutive: an application that alters a REGISTER it was handed, or sends one it made itself, is not modelled; it may drop, delay and reorder them.
- Several registrations at once: each has its own context, and nothing is shared but the counter of r_id.
- ppl_getopt (the short-option parser), the reset flag and the error printer of the option parser; characters above 127, which the C code compares as signed.
- Ipv6Printer.Ntop4: the source compares the length without the terminator, so a result of exactly `size` characters needs one byte more; the model returns the text and has no buffer to overrun.
- SdpAnswer.AnswerIsRight: the offered names hold no blank and no line feed, as the SDP parser, which is not part of this model, leaves them.
- Sizes of the text buffers of the SDP answer and the presence document.
- SendQueue.Sender.Run: payload 0 or 8 only; for any other payload the thread sends stale bytes. RTP control packets and timing are not modelled.
- call_locate_call, which repeats the search of call_proceeding, and the texts kept in a slot.
- xpidf+xml documents (MSN), the subscription slot tables, GUI, other sound back ends, digest computation, the HTTP tunnel, friends and identities files: no state that the modelled parts depend on.
