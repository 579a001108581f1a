# Proofs about lndclient's concurrent runtime and its macaroons

lndclient wraps lnd's gRPC interface for Go programs. Most of it copies fields around one RPC. This
project models the rest: the goroutines that connect streams to channels, the start-up of a client,
and the life of the macaroons that guard it. To verify it with Dafny 4.11, use
`dafny verify dfyconfig.toml`.

## How the pieces are modelled

**Concurrent protocols** are labelled transition systems. A state holds the program counters of all
goroutines, the channels, the contexts and the wait group; a label names one step, and carries
whatever the stream, the caller's handler or a select statement chose in it. A run is a sequence of
labels, so a lemma about reachable states is about every interleaving.

- `Interception`, `InterceptionInvariant`, `InterceptionSafety`, `InterceptionHistory`,
  `InterceptionShutdown`:
  `InterceptHtlcs` and `HtlcModifier`, which share one protocol. A reader, a main select loop and any
  number of handlers share an unbuffered request channel, a one-slot error channel, a context, a quit
  channel and a wait group. Short channel ids are those of `ShortChannelIds`.
- `StateSubscription`: `getLndInfo` together with the goroutine of `SubscribeState`.
- `NotifierWait`: `waitForChainNotifier` together with the block epoch goroutines of its attempts.

**Forwarding loops** are methods on objects. `Channels` has channels (capacity, buffer, parked receiver,
closed flag, and everything ever sent) as one sending goroutine sees them. A send that would block or
panic is excluded by precondition, so that a loop that verifies never blocks outside of a select and
never sends on a closed channel. What the others do is an input: the turn in which the context is
cancelled, what the receivers do before each select, and which case is taken when two are ready.
`StreamLoops` and `LoopRuns` say what a run of such a loop is, as a function of its stream and of these
surroundings, and what every run amounts to. `ChainNotifier`, `SpendNotifier` and `Payments` prove each
loop equal to that function: it sends the decoded image of a prefix of its stream, but for what it may
pass over, and ends for the reason that the stream or the context gives. `Lockstep` has the loops that
answer requests, and `PaymentResults` the one that waits for a payment's result.

**Macaroons.** `Permissions` has the two-level map that removes duplicates from a list of permissions,
and the count test that depends on their absence. `MacaroonService` has the service as a class over
the root key store and the macaroon file, and what one start does to the two as a function;
`MacaroonRestarts` proves what sequences of starts do. `MacaroonRecipe` computes the permissions of
client packages.

**Mission control.** `MissionControl` has the two conversions of its entries, and when they are each
other's inverse.

## What turned out not to hold

The code is modelled as it is; where a promise fails, the exact condition is proved.

- `WaitForFinished` is said to wait for all goroutines. It returns when the wait group is at zero, and
  at that moment a handler can still start exactly if the main loop holds a request that it has not
  yet added a goroutine for (`BarrierExact`). That state is reached by both protocols after quit was
  closed (`BarrierLeaks`).
- A spend stream can pass over a re-org signal and still go on, where a confirmation stream stops. For
  every stream and turn of cancellation, all runs send the exact image of what they handled if and only
  if there is no re-org channel or no re-org is taken up once the context is cancelled
  (`SpendExactExactly`); where one is, some run passes over it and goes on (`LateReorgSkipped`).
- The goroutine of `SubscribeState` can be left waiting until its context is done (`StuckStays`). Once
  the reader has gone, it is exactly when two states were yielded that the reader did not take, and the
  context is not done (`StuckExactly`). With states that progress
  strictly this cannot happen in wait mode; with a repeated state, or without waiting, it does.
- `waitForChainNotifier` retries starting-up errors, but only those that come from a block epoch stream:
  if registering itself fails with one, it is returned without a retry (`NilMeansHeight`,
  `StartingErrReturned`).
- A root key store under the empty password is said to be re-encrypted with the shared key. That
  succeeds for some behaviour of the outside if and only if the store has a root key
  (`RepairedExactly`). Without one no start ever succeeds, since only minting generates it, which comes
  after the change (`NoRootKeyFails`). A fresh store gets there when opening it with the shared key
  fails for some outside reason and opening it with the empty password does not (`FreshStoreLost`).
- A start that replaces the macaroon file is said to delete the old one first. It does not. The old file
  is kept exactly if there is no new macaroon to write, or a failed write has left it (`OldFileKept`). A
  start that fails has changed the file exactly if it was to replace it, had a new macaroon, and a failed
  write left something else (`FileAfterFailure`). If that does not decode, no later start succeeds
  (`FailedWriteLasts`): a start that is to keep a file can succeed if and only if the file is absent or
  decodes, and the store can be unlocked (`StartsExactly`).
- A spend's height survives decoding exactly if it fits in an int32 (`SpendRoundTrip`).
- Mission control entries survive an import and a query exactly if their times are whole seconds other
  than the start of 1970, or no time at all (`ImportThenQuery`). Pairs that are queried and imported keep
  their vertices, their millisatoshi amounts and their times other than Go's zero time, and come back as
  they were exactly if no time is that one and no satoshi amount is set (`QueryThenImport`).

## Model

| member | source | states |
|---|---|---|
| `ShortChannelIds.PackedRoundTrip` | router_client.go:1068-1073 | unpacking a short channel id and packing it again gives back every 64-bit value |
| `ShortChannelIds.UnpackedRoundTrip` | router_client.go:1167-1172 | packing and unpacking gives an id back exactly if its height and index fit in three bytes |
| `ShortChannelIds.PackedLayout` | router_client.go:1068-1073 | the height is in the top three bytes, the index in the next three, the output in the last two |
| `Interception.PackUnpack` | invoices_client.go:331-338 | the circuit key that a handler sees stands for the raw key received |
| `InterceptionSafety.Conservation` | router_client.go:1037-1161 | in every interleaving, each well-formed request received is in exactly one place: held by the reader or main loop, in a live handler, answered, failed, or dropped; at most one is dropped, and only with context or quit done |
| `InterceptionSafety.AnsweredOnce` | router_client.go:1117-1144 | no two responses sent answer the same request |
| `InterceptionSafety.AnswersItsRequest` | router_client.go:1130-1143 | each response answers a request received, with that request's raw circuit key, or for HtlcModifier the packed form of the key its handler supplied |
| `InterceptionSafety.BuiltKey` | invoices_client.go:383-392 | a modifier's response carries the raw key of its request when the handler passes on the key it was given |
| `InterceptionSafety.MessageMeansResponse` | router_client.go:1163-1222 | a response is turned into a message exactly if it decides something coherent, lnd reads that decision from the message, the preimage is always copied, and no other field of another action is set |
| `InterceptionSafety.NoErrorLost` | router_client.go:1024-1030 | while the main loop runs and neither context nor quit is done, each error passed to sendErr is waiting there or in the channel, unchanged |
| `InterceptionSafety.ErrorReachesMain` | invoices_client.go:299-305 | then the main loop can stop with such an error within three steps, whether it waits in its select or is about to start a handler |
| `InterceptionSafety.ReturnExplained` | router_client.go:1146-1160 | what the call returns is an error some goroutine reported and nobody dropped, or the shutdown error with quit closed, or the context's error with the context done |
| `InterceptionSafety.WaitGroupExact` | router_client.go:1038-1040 | the wait group counts the goroutines added and not yet done |
| `InterceptionHistory.SentAsReplied` | router_client.go:1129-1143 | each message on the wire means what its handler said: exactly one step of the run is a reply of that handler, and lnd reads that reply's decision from the message; for HtlcModifier the message is that reply's key, amount and flag |
| `InterceptionHistory.ReturnedAsGiven` | router_client.go:1146-1160 | an error that the call returns was given by the stream, a handler or a send, or names what was wrong with a request or a reply, or tells of the shutdown or the context |
| `InterceptionHistory.NothingElseSent` | invoices_client.go:365-398 | the responses on the wire are the sends of the run, in order, and every failure has been reported |
| `InterceptionHistory.RefusedExactly` | router_client.go:1178-1219 | a reply is refused exactly for the reason that its error names |
| `InterceptionHistory.DecodesExactly` | router_client.go:1055-1096 | which requests are well formed, what a handler is given for one, and the error for any other |
| `InterceptionHistory.CanBeHandled` | router_client.go:1104-1125 | an idle session takes up any well-formed request and calls a handler with it |
| `InterceptionHistory.CanBeAnswered` | router_client.go:1129-1143 | whatever a handler replies, its goroutine can go on to send what that means, or to report what is wrong with it |
| `InterceptionShutdown.NobodyStuck` | router_client.go:1007-1008 | once the main loop has returned and its cancel has run, every live goroutine has an enabled step |
| `InterceptionShutdown.StepFalls` | router_client.go:1007-1161 | the session stays over, and each goroutine step lowers a measure |
| `InterceptionShutdown.ExitBounded` | router_client.go:1007-1161 | every continuation has at most as many goroutine steps as the measure says |
| `InterceptionShutdown.Drains` | router_client.go:501-507 | a finished session can always be run until its wait group is at zero |
| `InterceptionShutdown.QuietStays` | router_client.go:1116-1144 | a session without reader, request in hand or handler stays that way |
| `InterceptionShutdown.BarrierExact` | router_client.go:1118-1125 | with the wait group at zero, a handler can still start if and only if the main loop has taken a request and not yet added it |
| `InterceptionShutdown.BarrierLeaks` | router_client.go:499-507 | for both protocols and every well-formed request, such a state is reached with quit closed, where WaitForFinished returns |
| `InterceptionInvariant.ReaderInv` | router_client.go:1037-1114 | every step of the reader keeps the invariant |
| `InterceptionInvariant.MainInv` | router_client.go:1116-1160 | every step of the main loop keeps the invariant |
| `InterceptionInvariant.HandlerInv` | router_client.go:1122-1144 | every step of a handler keeps the invariant |
| `InterceptionInvariant.HandlerSizes` | router_client.go:1122-1144 | how each step of a handler moves goroutines between stages |
| `InterceptionInvariant.ReachableInv` | invoices_client.go:277-413 | the invariant holds in every reachable state of both protocols |
| `Channels.Chan.Send` | chainnotifier_client.go:318-320 | a send that can go through is recorded after all earlier ones |
| `Channels.Chan.Close` | state_client.go:170-171 | a channel that is not closed is closed |
| `Channels.Chan.Receive` | chainnotifier_client.go:318-322 | what receivers leave in a channel, and when a send on it can go through |
| `Channels.OfferAt` | chainnotifier_client.go:173-178 | a select in given surroundings: sent if it can be and is preferred or the context is not done; otherwise the context is seen, or it waits |
| `LoopRuns.LoopRunTurn` | chainnotifier_client.go:274-356 | one turn of a loop body takes the run one event further, and is the whole run if it stops the loop |
| `LoopRuns.LoopRunSound` | chainnotifier_client.go:274-356 | in all surroundings the sends are the image of a prefix but for what was passed over, all of it from the turn of cancellation on, and the run stops at the first event that makes it, for the reason that the event or the context gives |
| `LoopRuns.SendsExactly` | router_client.go:778-782 | a notice is sent exactly if its channel is free and the send preferred or the context not done; the loop waits exactly if the channel is not free and the context not done |
| `LoopRuns.QuitsExact` | chainnotifier_client.go:318-322 | a loop that quits when it sees the context done has sent exactly the image of a prefix |
| `LoopRuns.OneNotice` | chainnotifier_client.go:324-330 | a loop that leaves after its first notice has sent one exactly if that is why it stopped |
| `LoopRuns.NeverWaits` | chainnotifier_client.go:267-268 | such a loop, with a slot in its channel, never waits, whether or not anybody receives |
| `LoopRuns.NobodyReceives` | chainnotifier_client.go:267-268 | if nobody receives, the sends fill the loop's own channel and no more, and it waits exactly when that is full |
| `LoopRuns.ReceivedAll` | chainnotifier_client.go:274-356 | if receivers always come, the image of the whole stream up to the first event that stops the loop is delivered |
| `LoopRuns.ForwardsDuly` | router_client.go:741-784 | a forwarding loop is cut short by the context only from the turn of cancellation on, waits only before it, and delivers everything if receivers always come |
| `LoopRuns.ForwardOne` | router_client.go:778-782 | the select of a forwarding loop is the turn that the run function has |
| `LoopRuns.ExactOrSkipped` | chainnotifier_client.go:181-191 | a run has sent the exact image of what it handled if and only if it passed over nothing |
| `LoopRuns.ExactExactly` | chainnotifier_client.go:181-235 | all runs are exact if and only if no notice that can be passed over is taken up once the context is cancelled |
| `StreamLoops.Deterministic` | chainnotifier_client.go:274-356 | two runs on one stream that stop by themselves stop at the same event, in the same way, with the same notices |
| `ChainNotifier.ConfRoundTrip` | chainnotifier_client.go:284-316 | a confirmation written by lnd is decoded to itself, with its block exactly if asked for |
| `ChainNotifier.ConfDecodes` | chainnotifier_client.go:284-316 | which confirmations can be decoded, to what, field by field, and the error for any other |
| `ChainNotifier.OfferFact` | chainnotifier_client.go:318-322 | the select that sends a fact turns out as its surroundings say, and the state keeps account of both channels |
| `ChainNotifier.OfferReorg` | chainnotifier_client.go:337-341 | the same for a re-org signal on the caller's channel |
| `ChainNotifier.PassConf` | chainnotifier_client.go:318-330 | a decoded confirmation is sent, or the context is seen, or the select waits, and the loop goes on only in re-org aware mode |
| `ChainNotifier.PassReorg` | chainnotifier_client.go:335-343 | a re-org is signalled if asked for, or the loop returns when the select sees the context done |
| `ChainNotifier.OnConfEvent` | chainnotifier_client.go:275-355 | one event takes the loop to the state that its reaction and the surroundings call for; an error finds the error channel empty |
| `ChainNotifier.ConfirmationLoop` | chainnotifier_client.go:271-357 | on every stream and in all surroundings the loop is the run that `ConfRun` defines: the merged sends are the decoded image of a prefix, in order, and one error is put exactly if it failed |
| `ChainNotifier.ConfRunSound` | chainnotifier_client.go:271-357 | a confirmation run quits for the context only from the turn of cancellation on, waits only before it, and delivers all that it takes if receivers always come |
| `ChainNotifier.ConfDelivers` | chainnotifier_client.go:271-357 | in re-org aware mode every confirmation and re-org handled is sent, decoded, in order and one for one; the loop ends only at an event that spoils the stream, with the error for it, or on the context |
| `ChainNotifier.ConfDeliversOne` | chainnotifier_client.go:324-343 | without a re-org channel only re-orgs are passed by, the first confirmation that can be decoded is sent as the last act unless the context is seen, and anything else is its error |
| `ChainNotifier.RegisterConfirmationsNtfn` | chainnotifier_client.go:240-360 | the same for the confirmation decoder, on new channels |
| `ChainNotifier.OneConfirmation` | chainnotifier_client.go:324-330 | without a re-org channel at most one confirmation is delivered over any run, no re-org, and the loop never waits |
| `ChainNotifier.BlockEpochLoop` | chainnotifier_client.go:372-395 | in all surroundings the loop is a forwarding run: heights are passed on in order, and one error is put exactly if it failed |
| `ChainNotifier.EpochsDelivered` | chainnotifier_client.go:379-391 | each height is passed on as the signed number with the same bits, one for one, up to a broken stream |
| `SpendNotifier.SpendRoundTrip` | chainnotifier_client.go:149-171 | a spend written by lnd is decoded to itself if and only if its height fits in an int32 |
| `SpendNotifier.SpendDecodes` | chainnotifier_client.go:149-171 | which spends can be decoded, to what, field by field, and the error for any other |
| `SpendNotifier.PassOn` | chainnotifier_client.go:173-179 | a decoded spend is sent, or the context's error is put, or the select waits |
| `SpendNotifier.ProcessSpendDetail` | chainnotifier_client.go:149-179 | a spend is decoded and passed on, or its error is put |
| `SpendNotifier.ProcessReorg` | chainnotifier_client.go:181-191 | a re-org is signalled if asked for, or passed over when the select sees the context done |
| `SpendNotifier.OnSpendEvent` | chainnotifier_client.go:197-233 | one event takes the loop to the state that its reaction and the surroundings call for; an error finds the error channel empty |
| `SpendNotifier.SpendLoop` | chainnotifier_client.go:194-235 | on every stream and in all surroundings the loop is the run that `SpendRun` defines, with its sends on the two channels, and one error exactly if it failed |
| `SpendNotifier.RegisterSpendNtfn` | chainnotifier_client.go:114-238 | a request for blocks is refused; otherwise the same for the spend decoder, on new channels |
| `SpendNotifier.SpendRunSound` | chainnotifier_client.go:194-235 | in every run the sends are the decoded image of a prefix but for re-orgs passed over, each taken in or after the turn of cancellation; the context's error comes only then, and waiting only before |
| `SpendNotifier.SpendExact` | chainnotifier_client.go:149-191 | with nothing passed over the sends are exactly the decoded image of a prefix |
| `SpendNotifier.SpendDelivers` | chainnotifier_client.go:194-235 | in re-org aware mode every spend handled is sent, decoded and in order, whether or not re-orgs are passed over; the loop ends only at an event that spoils the stream, with the error for it, or with the context's where it had a spend to send |
| `SpendNotifier.SpendDeliversAll` | chainnotifier_client.go:194-235 | with nothing passed over, every spend and re-org handled is sent, one for one |
| `SpendNotifier.SpendDeliversOne` | chainnotifier_client.go:212-221 | without a re-org channel only re-orgs are passed by, the first spend that can be decoded is sent as the last act unless the context is seen, and anything else is its error |
| `SpendNotifier.OneSpend` | chainnotifier_client.go:212-218 | without a re-org channel at most one spend is delivered over any run, no re-org, nothing is passed over, and the loop never waits |
| `SpendNotifier.LateReorgSkipped` | chainnotifier_client.go:186-190 | wherever a re-org is taken up once the context is cancelled, some run passes over it and goes on |
| `SpendNotifier.SpendExactExactly` | chainnotifier_client.go:181-235 | for every stream, turn of cancellation and re-org channel: all runs are exact if and only if there is no re-org channel or no re-org is taken up once the context is cancelled |
| `Payments.TallyInFlight` | router_client.go:884-897 | the loop over HTLCs gives the sum of the amounts in flight modulo 2^64 and their count, unless one cannot be decoded |
| `Payments.UnmarshallPaymentStatus` | router_client.go:858-900 | the decoded status of a payment update, or its error |
| `Payments.StatusFields` | router_client.go:866-882 | which updates can be decoded, and what each field of the status is |
| `Payments.OneInFlight` | router_client.go:164-175 | an HTLC in flight counts with what its last hop forwards, any other one not at all |
| `Payments.InFlightAddsUp` | router_client.go:884-897 | the amounts and counts of HTLCs add up |
| `Payments.StatusInFlight` | router_client.go:895-896 | the status has the sum modulo 2^64 and the count |
| `Payments.Forward` | router_client.go:743-782 | one update is passed on, or ends the run by closing both channels, with one error, or on the context, as the surroundings call for |
| `Payments.ForwardUpdates` | invoices_client.go:189-233 | for every decoder and in all surroundings the loop is a forwarding run: the updates sent are the decoded image of a prefix; both channels are closed or neither is; never a send after a close |
| `Payments.TrackPayment` | router_client.go:735-787 | the same for payments |
| `Payments.EndsOneWay` | router_client.go:741-784 | a run over ended by end of stream, by one error, or by the context, and everything before was passed on one for one |
| `Payments.TrackEnds` | router_client.go:744-776 | how tracking ends at each kind of value: NotFound and AlreadyExists have errors of their own |
| `Payments.AllDelivered` | router_client.go:741-784 | as long as the loop goes on, each update received is delivered |
| `PaymentResults.PaymentResultFromStream` | router_client.go:681-729 | the result is the verdict of the first value that settles the matter |
| `PaymentResults.PayInvoice` | router_client.go:618-677 | one SendPaymentV2 at most, TrackPaymentV2 exactly after AlreadyExists, and the verdict of the stream that counts |
| `PaymentResults.PayInvoiceAsync` | lightning_client.go:1530-1549 | exactly the final result, if there is one, is sent on a channel that is never closed |
| `PaymentResults.InFlightIrrelevant` | router_client.go:725-727 | any number of in-flight updates before does not change the verdict |
| `PaymentResults.RestIrrelevant` | router_client.go:684-728 | nothing after the first decisive value changes it |
| `PaymentResults.FirstDecides` | router_client.go:684-728 | the verdict is that of the first decisive value |
| `PaymentResults.VerdictExactly` | router_client.go:684-728 | what the first value that is not a readable pending update makes of the payment: amounts in satoshis and preimage, failure reason, nothing on Canceled, or the error for anything else |
| `PaymentResults.PaidExactly` | router_client.go:705-723 | a payment is reported as made if and only if that first value is one that succeeded, and as failed for a reason if and only if it is one that failed for it |
| `PaymentResults.PendingUnsettled` | router_client.go:725-727 | there is no result exactly while all updates are readable and pending |
| `PaymentResults.InvoiceCases` | router_client.go:622-676 | what the call makes of each kind of invoice and of each outcome of the two RPCs |
| `PaymentResults.StillUnsettled` | router_client.go:684-728 | there is no verdict exactly while no value is decisive |
| `PaymentResults.NoResultExactly` | router_client.go:686-688 | a stream gives no result if and only if Canceled comes first |
| `PaymentResults.InvoiceNoResult` | router_client.go:648-664 | the call gives no result if and only if its invoice is payable and Canceled comes first, from the RPC or its stream |
| `StateSubscription.ReachableInv` | state_client.go:131-179 | every interleaving of getLndInfo and SubscribeState keeps the invariant |
| `StateSubscription.GetInfoAfterReady` | lnd_services.go:709-746 | in wait mode GetInfo is called only after RPC_ACTIVE or SERVER_ACTIVE was yielded |
| `StateSubscription.ChannelsSound` | state_client.go:141-176 | no send on or close of a closed channel, states passed on in order, at most one error and it never waits |
| `StateSubscription.StatesByNumber` | state_client.go:194-217 | which number of the RPC is which wallet state |
| `StateSubscription.StartUp` | state_client.go:148-175 | in every run the goroutine ends with one error, or with both channels closed after number 4, or on the context; getLndInfo reads on until 3 or 4 is taken, asks for the info only after the stream yielded one of them, and returns only errors that the stream gave |
| `StateSubscription.AsksAtOnce` | lnd_services.go:710-744 | what getLndInfo can do with each thing that its select may find |
| `StateSubscription.StuckExactly` | state_client.go:161-165 | after the reader has gone, the goroutine is stuck if and only if two states were yielded that the reader did not take, and the context is not done |
| `StateSubscription.StuckStays` | state_client.go:161-165 | a goroutine that is stuck stays so in every run without cancellation |
| `StateSubscription.NeverStuck` | lnd_services.go:721-726 | with strictly progressing states a waiting getLndInfo that stopped never leaves it stuck |
| `StateSubscription.RepeatedStateSticks` | state_client.go:161-165 | with a repeated state it can be left stuck |
| `StateSubscription.NoWaitSticks` | lnd_services.go:702-704 | without waiting it can be left stuck |
| `NotifierWait.ReachableInv` | lnd_services.go:572-639 | every interleaving of the retry loop and its block epoch goroutines keeps the invariant |
| `NotifierWait.NilMeansHeight` | lnd_services.go:582-614 | nil is returned only after the last attempt took a height that its stream yielded; an error returned is a starting-up error only if registering itself failed |
| `NotifierWait.StartingErrReturned` | lnd_services.go:586-590 | whatever error registering fails with, a starting-up error included, is returned without a retry |
| `NotifierWait.StartingExactly` | lnd_services.go:796-813 | an error tells of a notifier that is starting if and only if its code is 14 or its text contains the message |
| `NotifierWait.RetriesExactly` | lnd_services.go:597-609 | with an error waiting, the loop can retry if and only if it tells of a notifier that is starting, and can return it if and only if it does not |
| `NotifierWait.RetriesOnly` | lnd_services.go:599-609 | it retries only with such an error in hand, and after a full poll wait |
| `NotifierWait.ReturnedNotStarting` | lnd_services.go:609 | an error of a block epoch stream that is returned has neither that code nor that text |
| `NotifierWait.ReturnGiven` | lnd_services.go:586-614 | what is returned was given by a step of the run: a height or an error of a stream, or an error of registering |
| `NotifierWait.MovesOn` | lnd_services.go:600-613 | a height on offer can be taken and ends the wait; a poll wait can end and then registers again |
| `NotifierWait.AttemptsCounted` | lnd_services.go:617-636 | the attempts are one more than the starting-up errors followed by a full poll wait |
| `NotifierWait.RegistersCounted` | lnd_services.go:617-636 | counted over the steps of a run, registering happens once more than full poll waits, each of which followed one starting-up error |
| `NotifierWait.AbandonedMoves` | chainnotifier_client.go:377-392 | the goroutine of an abandoned attempt is never stuck |
| `NotifierWait.AbandonedEnds` | lnd_services.go:583-584 | and takes two more steps at most, however the run goes on |
| `Lockstep.AnswerLoop` | lightning_client.go:4054-4117 | receiving, calling and answering take turns, each turn about its own request; it stops at the first failure, or at the start of the turn in which the context is cancelled, and reports that one error |
| `Lockstep.StopsAtFirst` | lightning_client.go:4058-4116 | the loop goes through the turns that are fine and stops with the error of the first that is not, whichever of stream, request, function and send failed |
| `Lockstep.CalledBetween` | lightning_client.go:4066-4110 | between receiving a request and answering it, the function is called with just that request |
| `Lockstep.InLockstep` | lightning_client.go:4057-4116 | at every point of a run, how many requests were received and answered |
| `Lockstep.ResponsesMatch` | lightning_client.go:4334-4364 | requests received minus responses sent is 0 or 1, and the k-th response is built from the k-th request and its answer |
| `Lockstep.AcceptorMatches` | lightning_client.go:4096-4108 | the k-th response carries the k-th request's pending channel id and what the accept function decided |
| `Lockstep.AcceptChecks` | lightning_client.go:1148-1196 | a request is valid if and only if its node key has 33 bytes and its commitment type is known |
| `Lockstep.ChannelAcceptor` | lightning_client.go:4042-4120 | the loop with that check and that response, on a new error channel |
| `Lockstep.MiddlewareMatches` | lightning_client.go:4337-4363 | the middleware refuses no request, and its k-th response is what the interceptor answered to the k-th request |
| `Lockstep.RegisterRPCMiddleware` | lightning_client.go:4265-4368 | the interceptor is never called unless RegComplete was received; then the same loop runs, and stops only at its first failure or when the context is cancelled |
| `Permissions.AddAll` | macaroon_service.go:333-343 | a list of permissions is added to what the map stands for |
| `Permissions.Flatten` | macaroon_service.go:345-356 | in whatever order the map is visited, the list has each operation exactly once |
| `Permissions.CountElements` | macaroon_service.go:452-454 | a list is as long as its set exactly if it has no duplicates |
| `Permissions.CountTestExact` | macaroon_service.go:434-457 | all required allowed and equal counts means equal sets, for a list without duplicates |
| `Permissions.CountTestNeedsNoDuplicates` | macaroon_service.go:424-457 | and for a list with duplicates it does not |
| `MacaroonService.ExtractPerms` | macaroon_service.go:330-357 | every required operation, exactly once |
| `MacaroonService.RootKeyStore.CreateUnlock` | macaroon_service.go:210-228 | a locked store opens with its password, a fresh one with any |
| `MacaroonService.RootKeyStore.ChangePassword` | macaroon_service_test.go:58-62 | an unlocked store that has a root key is put under the new password, any other is left alone |
| `MacaroonService.RootKeyStore.RootKey` | macaroon_service.go:283-295 | the root key there is, or a new one if there was none |
| `MacaroonService.Service.MatchesPermissions` | macaroon_service.go:411-458 | whether the file grants exactly the required set, with each error case |
| `MacaroonService.Service.Unlock` | macaroon_service.go:176-238 | the state of the store and the error after the unlock phase |
| `MacaroonService.Service.Start` | macaroon_service.go:165-308 | the state of store and file and the error after a start |
| `MacaroonRestarts.FileAfterStart` | macaroon_service.go:243-308 | after a successful start the file grants exactly what it required, and it was rewritten exactly if it was absent, granted something else, or could not be checked |
| `MacaroonRestarts.FileAfterFailure` | macaroon_service.go:289-307 | a failed start has changed the file if and only if it was to replace it, had a new macaroon, and a failed write left something else |
| `MacaroonRestarts.OldFileKept` | macaroon_service.go:276-307 | a start that is to replace the file keeps the old one if and only if there is no new macaroon or a failed write has left it |
| `MacaroonRestarts.StartsExactly` | macaroon_service.go:165-308 | with or without an extended store, a start that is to keep a file can succeed if and only if the file is absent or decodes and the store can be unlocked |
| `MacaroonRestarts.FailedWriteLasts` | macaroon_service.go:305-307 | a failed write that leaves an undecodable file lets no later start succeed |
| `MacaroonRestarts.ConfiguredPassword` | macaroon_service.go:180-190 | with a configured password, when unlocking succeeds and what it leaves; without an extended store there is nothing to unlock |
| `MacaroonRestarts.StatelessStart` | macaroon_service.go:240-245 | a stateless start leaves the file alone and succeeds exactly if it gets past unlocking |
| `MacaroonRestarts.StartErrors` | macaroon_service.go:167-307 | which failure gives which error, and that the file is left alone up to the writing |
| `MacaroonRestarts.RequiredIsUnion` | macaroon_service.go:333-343 | what is required is the union of the permissions of all methods |
| `MacaroonRestarts.UndecodableFails` | macaroon_service.go:250-268 | over every run, an undecodable file stays and lets no start succeed |
| `MacaroonRestarts.RewritesAreUpgrades` | macaroon_service.go:243-308 | over every run of successful starts, with or without a file at first, the file grants what was last required and was written as often as the required set changed, the first file included |
| `MacaroonRestarts.UnlockedUnder` | macaroon_service.go:192-238 | from each state of the store: when unlocking succeeds, that it leaves the store under the shared key, and the one case in which a failure changes the store |
| `MacaroonRestarts.MigratesOnce` | macaroon_service.go:208-237 | over every run, the store is under the shared key once a start has unlocked it, and remains so |
| `MacaroonRestarts.OtherPasswordFails` | macaroon_service.go:223-228 | over every run, a store under another password is left alone and lets no start succeed |
| `MacaroonRestarts.NoRootKeyFails` | macaroon_service.go:220-237 | over every run, a store under the empty password without a root key is left alone and lets no start succeed |
| `MacaroonRestarts.RepairedExactly` | macaroon_service.go:220-237 | a start can unlock a store under the empty password if and only if it has a root key |
| `MacaroonRestarts.FreshStoreLost` | macaroon_service.go:208-237 | a fresh store that only the empty password opened lets no later start succeed |
| `MacaroonRestarts.NotUnlockedTwice` | macaroon_service.go:310-327 | a store that was not closed makes the next start fail without change |
| `MacaroonRecipe.LookupsAre` | macaroon_recipes.go:112-140 | the RPCs looked up are those of the package's methods that are not ignored, renamed or overridden |
| `MacaroonRecipe.AddRpcs` | macaroon_recipes.go:142-160 | the permissions of a method's RPCs are added, or the first URI that is not listed is reported |
| `MacaroonRecipe.AddPackage` | macaroon_recipes.go:110-161 | the same for a package |
| `MacaroonRecipe.Recipe` | macaroon_recipes.go:90-177 | a list without duplicates whose set is the union of the needed permissions, or the error of the first package with something unknown |
| `MacaroonRecipe.FailsExactly` | macaroon_recipes.go:101-148 | there is an error if and only if a package or URI is unknown, and only one |
| `MacaroonRecipe.OneMethodRecipe` | macaroon_recipes.go:116-160 | a method that is neither overridden nor ignored is looked up in its package's service, under the name that it is renamed to if there is one; its permissions are the recipe, or its URI is the error |
| `MacaroonRecipe.OverriddenRecipe` | macaroon_recipes.go:127-160 | an overridden method needs just the RPCs of its override |
| `MacaroonRecipe.IgnoredRecipe` | macaroon_recipes.go:123-125 | an ignored method needs nothing |
| `MacaroonRecipe.MethodByMethod` | macaroon_recipes.go:112-161 | a package needs what each of its methods alone would need |
| `MacaroonRecipe.SamePackagesSameRecipe` | macaroon_recipes.go:164-176 | order and repetition of packages do not matter |
| `MacaroonRecipe.RecipeOfBoth` | macaroon_recipes.go:100-101 | the recipe of concatenated lists is the union |
| `MacaroonRecipe.LibraryRpcs` | macaroon_recipes.go:46-85 | with the library's tables, only PayInvoice leaves its package's own service, only RawClientWithMacAuth needs nothing, and every other method is looked up under its renamed name |
| `MissionControl.QueryMissionControl` | router_client.go:1246-1301 | the entries that the pairs with a history stand for, or the error of the first bad one |
| `MissionControl.EntryFields` | router_client.go:1266-1295 | which pairs have an entry, and what each of its fields is |
| `MissionControl.ImportMissionControl` | router_client.go:1305-1341 | the request's slice, filled in place, holds each entry's pair |
| `Words.Int64RoundTrip` | router_client.go:1320-1323 | amounts survive the conversions between int64 and uint64 |
| `MissionControl.ImportThenQuery` | router_client.go:1316-1335 | imported entries are queried back if and only if all their times can be sent |
| `MissionControl.ImportsAreQueried` | router_client.go:1266-1274 | a query of imported entries does not fail |
| `MissionControl.QueryThenImport` | router_client.go:1261-1335 | of queried pairs with a history, vertices, millisatoshi amounts and times other than Go's zero time are imported again; the pairs come back as they were if and only if no time is that one and no satoshi amount is set |
| `MissionControl.PairRoundTrip` | router_client.go:1276-1332 | the same for one pair |

## Left out

- The gRPC transport, TLS, dialing, macaroon metadata and file reading: Recv, Send, RPCs and file operations are steps or parameters of the environment.
- The unary wrappers of all clients, enum mappings, option setters and version checks: settled by reading one branch.
- Transaction, block and invoice parsers, and the bakery: external code, given as parameters or small contracts. Caveats are fixed. A root key is generated by minting and never replaced; other programs may generate one through the library. A macaroon minted under another root key grants nothing.
- Timers: a timeout or a poll interval may pass at any moment.
- Opening a stream: each goroutine is modelled from the point where its RPC has succeeded.
- `InterceptHtlcs` and `HtlcModifier` with several sessions on one client: the wait group is that of one session. Sends of several handlers on one stream are taken to be atomic, and a handler that reports no error is taken to return a response.
- The copied fields of requests and responses stand together as one opaque body.
- Interception.Decode: does not model a modifier request without a circuit key, because `HtlcModifier` reads the key without a check and the client would crash (invoices_client.go:331-338).
- Channels.Chan.Receive: the buffer is a count of values, not the values; a caller's re-org channel is closed by nobody.
- NotifierWait.ReachableInv: requires a context that is not nil, although a configuration without one is accepted and passed on (lnd_services.go:477-479).
- Payments.TallyInFlight: a route whose list of hops is present but empty counts as no route; the source would crash on it, and gRPC never delivers one.
- Lockstep.AcceptorMatches: which commitment types are known is a parameter.
- `waitForChainSync`: its goroutine hands one value over to a reader that never leaves, so that neither can be stuck.
- `SubscribeHtlcEvents` and the other subscriptions: the same loop shape. `SubscribeTransactions` goes on after an unmarshal error (lightning_client.go:4529-4533), so that the one-error rule does not cover it.
- MacaroonService.Service.Start: there is one file and one path; the checks of `NewMacaroonService` are not modelled. The bakery's login operation, which it does not let share a macaroon, is not treated specially.
- MacaroonRecipe.Recipe: the methods of the client interfaces, which the source finds by reflection, are a parameter.
