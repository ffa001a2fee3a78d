# Formal model of recsync

A Dafny 4.11 model of recsync: how the records of an EPICS IOC travel from the C client (RecCaster) over TCP
to the server (RecCeiver), and from there into ChannelFinder and into an SQL database.
`dafny verify dfyconfig.toml` checks everything.

## What is modelled

| files | part of the system |
|---|---|
| `CfModel`, `Properties`, `Settings` | ChannelFinder channels and properties, the merge of property lists, the managed names |
| `ChannelIndex`, `IndexHistory` | the three maps CFProcessor keeps, one step at a time and over runs |
| `PushDiff`, `Failover`, `Agreement` | the diff a commit writes, where channels go, and index against ChannelFinder over runs of many IOCs |
| `Pushing` | what becomes of a push: failing requests, partial writes, cancellations, attempts |
| `Processor` | CFProcessor as a class: update in place, loops, chunks, retries |
| `Bytes`, `Messages`, `Sending`, `Caster`, `Framing` | the wire format on both sides, partial sends, and the framing machine |
| `Transactions`, `SessionSpec`, `Batching`, `CutPoints` | what a session collects, when it cuts, and that cutting keeps the meaning |
| `CommitChain`, `CollectionSession` | the chain of commits, and the session and its transactions as objects |
| `DbStore`, `DbServers`, `DbProcessor` | the SQL consumer: one client's tables, many clients, the statements |
| `Controller`, `Recording` | the list of processors, and how commits reach the SQL consumer |
| `Slots`, `Admission`, `KeepAlive`, `CastServer` | upload slots, both ends of the upload protocol, ping timers, and the server's objects |
| `Upload`, `PdbPush`, `Pipeline`, `Deployment` | the C client's upload, and everything composed from its bytes to the database rows |
| `NameQuery`, `Sweep` | packing of name queries, and the clean-up tool |

Code that computes is modelled by functions. Code that updates state is modelled by classes and loops, each
method proved against a function on values; the properties are lemmas about those functions. Clocks, random
numbers, request failures, cancellations, partial sends, the order of Python sets and the way a byte stream is cut
are arbitrary everywhere.

## Findings

Where the code does something other than one would expect from its documentation, the model follows the code:

- Deleting single records never reaches ChannelFinder. A transaction names deleted records by id, the index by
  name (`Agreement.DeletedRecordsStayActive`).
- Refreshing a channel drops its other managed properties, the IOC's tag among them, so a record that is
  committed twice under one id alternates between having and not having the tag (`PushDiff.TagAfterPush`).
  A push that fails between chunks and is retried therefore strands what it had written
  (`Agreement.RetiredAfterRetryIff`).
- An evicted IOC whose connection goes on (a failed push is not reported to its session) sends its next records as a
  follow-up commit. That commit breaks off, but not before the IOC has become the owner of a channel again, and its
  disconnect is then ignored, so it stays there (`ChannelIndex.EvictedIocComesBack`, `Processor.CfProcessor.Commit`).
- One failing SQL transaction of any client ends recording for all clients: the processor is taken off the list for
  good (`Recording.RecordingGoesOnIff`, `Recording.GivenIff`). It takes no more than a connection lost before its
  session's first flush, whose disconnect comes from a session the consumer does not know
  (`Recording.EarlyLossEndsRecording`).
- A record that is given an alias and deleted within one transaction makes the transaction fail
  (`DbStore.DeleteSpoilsIff`).
- README.md:165-166 asks endpoints to ignore unknown messages and extra body bytes. The receiver loses the
  connection on unknown messages with a body (`Framing.UnknownMessagesAreFatal`), and no decoder accepts extra
  bytes (`Messages.ExtraBytesAreRejected`).
- The ping timer notices silence, not unanswered pings (`KeepAlive.TalkersStay`).
- In the C client a failure to send an alias or info goes unreported if the description is then sent
  (`PdbPush.LossIsHiddenIff`, `PdbPush.LossIsPossibleIff`).
- Channels that ChannelFinder already lists under an IOC's id when it first commits, left over from before a restart,
  are neither tracked nor, if the IOC brings records, made Inactive; among its records they lose the tag
  (`Agreement.OpeningAgreesIff`, `Agreement.OpeningLooksRightIff`).
- Closing a session drops what has not been flushed: nothing exactly if every change was followed by a Done
  (`SessionSpec.DisconnectIsLast`, `SessionSpec.PendingIff`).
- The columns `record_type` and `record_name` that dbstore.py:139, 145 and 154 write are `rtype` and `rname` in the
  shipped server/recceiver.sqlite3 (lines 24 and 34). The model takes the names to agree.

## Model

| member | source | states |
|---|---|---|
| `ChannelIndex.StepKeepsInvExactly` | `server/recceiver/cf/processor.py:292-332` | For any commit, disconnect or eviction on a consistent index: owner lists and channel sets stay mirror images, lists stay duplicate-free and non-empty, counts stay equal to the channel sets and every owner stays known, if and only if the step is neither an initial commit for an id that still has channels nor a follow-up with names from an IOC that is not known, which breaks off half done |
| `ChannelIndex.EvictedIocComesBack` | `server/recceiver/cf/processor.py:310-314` | An evicted IOC that goes on sending records stays in an owner list without being known, and its disconnect is one that is ignored; see Findings |
| `ChannelIndex.NoDeadBranches` | `server/recceiver/cf/processor.py:418-436` | Taking the last owner never fails, every owner has a record, and no removal drives a count below zero |
| `ChannelIndex.RegisterThenEvictIsIdentity` | `server/recceiver/cf/processor.py:406-416` | A first commit followed by the eviction of that IOC restores all three maps exactly |
| `ChannelIndex.StepIsolatesIocs` | `server/recceiver/cf/processor.py:306-328` | A step of one IOC leaves every other IOC's channels, record and relative place in every owner list as they were |
| `ChannelIndex.LinkUnion` | `server/recceiver/cf/processor.py:310-315` | Registering names one after the other, in any order, equals registering them at once |
| `ChannelIndex.UnlinkUnion` | `server/recceiver/cf/processor.py:316-321` | Removing an IOC's channels one after the other equals removing them at once |
| `IndexHistory.OwnersAreInTenureOrder` | `server/recceiver/cf/processor.py:310-319` | Over every run the owner list is the list of still-counting registrations, each once, in the order they were made |
| `IndexHistory.OwnedIffRegistered` | `server/recceiver/cf/processor.py:310-319` | Over every run an IOC is an owner if and only if one of its registrations of that name has not been followed by its departure |
| `IndexHistory.LastOwnerIsTheNewest` | `server/recceiver/cf/processor.py:642-660` | The IOC a channel fails over to is the owner with the most recent counting registration |
| `IndexHistory.RecordIsFromTheOpening` | `server/recceiver/cf/processor.py:306-328` | Over every run the index knows an IOC if and only if nothing has made it forget the IOC since its latest initial commit, an eviction or a disconnect with channels, and its record is then what that commit said, with the present number of its channels |
| `IndexHistory.ProbedForEver` | `server/recceiver/cf/processor.py:317-319` | The empty lists that looking up record ids leaves behind are exactly those of all ids ever named for deletion: none is dropped again |
| `Processor.CfProcessor.RegisterName` | `server/recceiver/cf/processor.py:310-315` | The in-place registration of one name has exactly the effect of the specified link, also when the IOC owns it already, and breaks off with the owner appended exactly when the IOC is not known |
| `Processor.CfProcessor.RemoveChannel` | `server/recceiver/cf/processor.py:418-436` | The in-place removal, for any index, including the branches for an unknown IOC |
| `Processor.CfProcessor.RemoveAllChannels` | `server/recceiver/cf/processor.py:316-319` | The removal loop of a disconnect ends with all of the IOC's channels unlinked and the invariant intact |
| `Processor.CfProcessor.EvictIoc` | `server/recceiver/cf/processor.py:406-416` | Eviction equals the specified step |
| `Processor.CfProcessor.UpdateIocInfos` | `server/recceiver/cf/processor.py:292-321` | A whole index update equals the specified step, whose record of the IOC `IndexHistory.RecordIsFromTheOpening` describes, or breaks off exactly when the step is not callable, and yields as names to delete exactly the IOC's channels on disconnect and none otherwise |
| `Properties.MergePropertyLists` | `server/recceiver/cf/processor.py:882-895` | The loop computes the specified merge |
| `Properties.MergeIsIdempotent` | `server/recceiver/cf/processor.py:882-895` | Merging the same properties twice changes nothing more |
| `Properties.MergeKeepsUserProperties` | `server/recceiver/cf/processor.py:882-895` | When only managed names are written, the unmanaged properties keep names, owners, values, multiplicity and order |
| `Properties.MergeSets` | `server/recceiver/cf/processor.py:882-895` | A name written once has that value and no other afterwards |
| `Properties.MergeOfUnwritten` | `server/recceiver/cf/processor.py:890-895` | A property that is not written stays if and only if its name is unmanaged |
| `Settings.WrittenNamesAreManaged` | `server/recceiver/cf/processor.py:104-149` | Whatever the configuration and whatever an IOC sends, every property name a push can write is managed |
| `Settings.SeparateNamesNeverClash` | `server/recceiver/cf/processor.py:223-276` | Configured tags and environment properties that avoid the fixed names never collide with them in any record |
| `Settings.SetupKeepsConfiguration` | `server/recceiver/cf/processor.py:104-149` | Every configured variable and tag is looked for; connection info adds the two server ports under their own names, also if these variables are configured otherwise, and descriptions their tag |
| `Settings.RecordSaysWhatWasSent` | `server/recceiver/cf/processor.py:239-276` | A record carries every whitelisted info tag it came with and every configured variable its IOC sent, each with the value sent, and no other info |
| `Settings.ByNameKeys` | `server/recceiver/cf/processor.py:279-290` | The keys are exactly the names of the transaction |
| `Settings.ByNameIsFirst` | `server/recceiver/cf/processor.py:279-290` | Of several records with one name the first counts |
| `PushDiff.WritesShape` | `server/recceiver/cf/processor.py:516-578` | A diff names each channel at most once, only channels found under the IOC or its records, each with its target content, and every record; on a disconnect every channel found |
| `PushDiff.LandedAt` | `server/recceiver/cf/processor.py:620-623` | After any prefix of the written list a channel has its old content or its target content; after the whole list every record, and on a disconnect every channel found, has its target |
| `PushDiff.UserPropertiesSurvive` | `server/recceiver/cf/processor.py:580-764` | At every point of a write every existing channel still has all its unmanaged properties, in order |
| `PushDiff.OthersUntouched` | `server/recceiver/cf/processor.py:516-578` | At every point of a write, channels neither tagged with this IOC nor among its records are unchanged, and none of them appears or disappears |
| `PushDiff.PushConverges` | `server/recceiver/cf/processor.py:516-618` | After a complete write every record name is in ChannelFinder, solely Active and solely with this commit's time |
| `PushDiff.TagAfterPush` | `server/recceiver/cf/processor.py:742-764` | After a complete write a record is found under its IOC's id if and only if it was not before; see Findings |
| `PushDiff.NewRecordIsDescribed` | `server/recceiver/cf/processor.py:580-618` | After a complete write a record that was not found under its IOC before, moved or created, has exactly that IOC's host, name, id and address, is Active with this commit's time and this receiver, and carries its type and all its infos |
| `PushDiff.GivenUpTarget` | `server/recceiver/cf/processor.py:666-740` | A channel an IOC gives up goes to its last registered owner, Active and with that owner's account and id, and is Inactive with its tag unchanged when nobody is left |
| `PushDiff.OrphanKeepsTheRest` | `server/recceiver/cf/processor.py:711-725` | A channel given up by its last IOC is solely Inactive with solely this commit's time, and keeps its account and every other property, managed or not, in order |
| `PushDiff.AccountOfTarget` | `server/recceiver/cf/processor.py:666-840` | A created channel gets the account of its IOC, one handed over that of its new IOC, and any other keeps its own |
| `PushDiff.AccountsOfProps` | `server/recceiver/cf/processor.py:848-880` | Whatever a commit writes besides the infos of a record is under the commit's own account, also on channels it hands to another IOC |
| `PushDiff.NothingIsStale` | `server/recceiver/cf/processor.py:742-764` | Of the managed properties a refreshed record has status and time alone, a moved one the defaults, its type and its infos, and one handed over the defaults; a created one has nothing besides these |
| `PushDiff.ReassignedIsDescribed` | `server/recceiver/cf/processor.py:711-740` | On a disconnect a channel with owners left has, after the write, the account and exactly the seven default properties of the last of them |
| `Failover.FailoverIsToTheNewest` | `server/recceiver/cf/processor.py:640-690` | After any legal run a channel its IOC gives up goes to the IOC whose counting registration is the newest, with that IOC's account, and says exactly what the latest initial commit of that IOC said: host, name, id and address |
| `Failover.RetiredWithoutRegistrations` | `server/recceiver/cf/processor.py:640-664` | After any legal run a given-up channel without counting registrations is Inactive and otherwise as it was |
| `Processor.CfProcessor.HandleChannels` | `server/recceiver/cf/processor.py:625-664` | The loop over old channels, with the set of new names shrinking under it, yields the specified writes and remaining names |
| `Processor.CfProcessor.ProcessNewChannels` | `server/recceiver/cf/processor.py:580-618` | The loop over new names yields the specified creations in the order of iteration |
| `Pushing.AttemptEndsIff` | `server/recceiver/cf/processor.py:516-578` | Told from the answers alone: an attempt is done if and only if no request fails and nothing was cancelled by its end; it is cancelled if and only if it was before it started, or was by the end of its queries or of its writes with no failure before; otherwise the last request it made has failed |
| `Pushing.PushedIff` | `server/recceiver/cf/processor.py:487-502` | A push succeeds if and only if some attempt within the budget meets no failure and no cancellation comes before it ends |
| `Pushing.AbandonedIff` | `server/recceiver/cf/processor.py:487-510` | A push is cancelled if and only if a cancellation ends an attempt within the budget before which all have failed, and gives up if and only if its whole budget has gone on failures; every attempt but the last has failed |
| `Pushing.RetriesSuffice` | `server/recceiver/cf/processor.py:487-507` | If nobody cancels and nothing fails any more from some request on, a budget larger than the number of requests until then brings success, in at most one attempt more than that number |
| `Pushing.PromiseKept` | `server/recceiver/cf/processor.py:474-578` | However a push ends: user properties and foreign channels are intact, and after success every record is solely Active with this commit's time |
| `Processor.CfProcessor.CfSetChunked` | `server/recceiver/cf/processor.py:620-623` | The loop over chunks equals the specified write for everything that can happen to the requests |
| `Processor.CfProcessor.UpdateChannelFinder` | `server/recceiver/cf/processor.py:516-578` | One attempt equals the specified one, in contents, requests made, flag and outcome, whatever fails or is cancelled where |
| `Processor.CfProcessor.PushToCf` | `server/recceiver/cf/processor.py:474-510` | Retries up to the first attempt that does not fail, for the budget or until the service is stopped, and leaves ChannelFinder as that many attempts do; user properties and foreign channels are intact whatever happens, and, if configured names avoid the fixed ones, a push that reports success left every record Active with this commit's time |
| `Processor.CfProcessor.Commit` | `server/recceiver/cf/processor.py:334-404` | On a consistent index a commit applies exactly one step, pushes it as specified, takes it back if a data push gave up, and breaks off without touching ChannelFinder exactly when a follow-up comes from an unknown IOC; in all other cases the index stays consistent. On any index, the disconnect of an unknown IOC changes nothing |
| `Agreement.AgreementOverRuns` | `server/recceiver/cf/processor.py:292-321` | Over every run of many IOCs, none of which finds channels under its own id when it first commits: every tracked channel is solely Active and tagged solely with the last of its owners; every other channel tagged with an id ever used is Inactive; no stray channel carries a connected IOC's tag |
| `Agreement.OpeningAgreesIff` | `server/recceiver/cf/processor.py:542-578` | A first commit keeps that agreement if and only if ChannelFinder holds nothing under the id of its IOC yet |
| `Agreement.OpeningLooksRightIff` | `server/recceiver/cf/processor.py:625-664` | After a first commit every tracked channel is Active under its owner and every other channel with a used tag Inactive, if and only if none of the channels found under the id is among the records, and they were Inactive already unless there are no records at all |
| `Agreement.FollowUpAgreesIff` | `server/recceiver/cf/processor.py:754-761` | A further commit of a connected IOC keeps the agreement if and only if it repeats none of the names the IOC serves already |
| `Agreement.NothingActiveAtTheEnd` | `server/recceiver/cf/processor.py:642-660` | When all IOCs have left, nothing tagged with any of their ids is Active |
| `Agreement.DeletedRecordsStayActive` | `server/recceiver/cf/processor.py:317-319` | Whatever a commit adds and deletes, all channels the IOC had are still tracked and Active afterwards; see Findings |
| `Agreement.RetiredAfterRetryIff` | `server/recceiver/cf/processor.py:495-510` | After an attempt that failed, a retry that succeeded and the disconnect, a record nobody else owns is Inactive if and only if the failed attempt had not left the IOC's tag on it; see Findings |
| `Agreement.RetryStrandsRecord` | `server/recceiver/cf/processor.py:495-510` | If it had, the record stays Active and without the tag, whoever else owns it |
| `SessionSpec.DisconnectIsLast` | `server/recceiver/recast.py:272-282` | Closing adds exactly one disconnect, last; every transaction before it is a data transaction |
| `SessionSpec.PendingIff` | `server/recceiver/recast.py:272-292` | Something is pending, and would be dropped by a close, if and only if some add, delete or info has come that no Done has followed, whatever the limit and the clock |
| `SessionSpec.RunIsSound` | `server/recceiver/recast.py:266-292` | Exactly the first flushed transaction is marked initial, and a session with nothing to flush has an empty pending transaction |
| `SessionSpec.TransactionsAreBounded` | `server/recceiver/recast.py:311-319` | With a limit set, adds plus deletes of no transaction ever exceed it |
| `SessionSpec.CutIff` | `server/recceiver/recast.py:311-324` | An add or delete cuts off the pending transaction if and only if its oldest change is as old as the timeout or the limit is reached; Done cuts whatever is pending; nothing else cuts |
| `SessionSpec.SomethingIsPendingLongest` | `server/recceiver/recast.py:321-324` | Whenever something is pending, the deadline is the time of the first change since the last cut plus the timeout |
| `SessionSpec.ClientInfosAreCumulative` | `server/recceiver/recast.py:290-291` | Every flushed transaction carries exactly the client-wide infos of all messages before its cut, the pending one those of all messages so far |
| `DbStore.ExtendCommutes` | `server/recceiver/dbstore.py:122-172` | Collecting a message into a transaction and committing equals committing and then applying the message |
| `DbStore.RepeatedInfosAreInert` | `server/recceiver/dbstore.py:122-126` | A transaction that only repeats known client infos changes nothing |
| `DbStore.DeleteSpoilsIff` | `server/recceiver/recast.py:342-347` | Collecting a delete turns a transaction that can be committed into one that cannot, if and only if the record has pending aliases; see Findings |
| `Batching.BatchingPreservesMeaning` | `server/recceiver/recast.py:284-356` | Whatever the limit, the deadlines and the clock: committing what has been flushed and then what is pending gives the tables of the messages one by one |
| `Batching.UploadIsComplete` | `server/recceiver/recast.py:326-327` | After Done the flushed transactions alone give those tables |
| `Batching.CutsDoNotMatter` | `server/recceiver/recast.py:311-324` | Two sessions with different limits and clocks end with the same tables |
| `CutPoints.RecordsAreNotSplit` | `server/recceiver/recast.py:308-319` | For streams of the client's shape every flushed transaction contains the record of each of its aliases and infos |
| `CutPoints.UploadIsPartitioned` | `server/recceiver/recast.py:326-340` | After Done the flushed transactions partition exactly the uploaded records: each in one, with its name and type |
| `CommitChain.OneAtATimeInOrder` | `server/recceiver/recast.py:294-306` | Whatever mix of commits succeed, fail or are cancelled: transactions are handed over in flush order, each once, only after every earlier commit has ended, and none waits while nothing is in flight |
| `CommitChain.NothingIsStranded` | `server/recceiver/recast.py:298-304` | After any state and any outcomes the k-th waiting transaction is handed over at the k-th end of a commit; the connection is dropped if and only if one failed |
| `CollectionSession.Session.Flush` | `server/recceiver/recast.py:284-306` | Flushing hands the pending object to the chain, replaces it by a fresh one with a copy of the client infos, and leaves all flushed objects as they were |
| `CollectionSession.Session.Receive` | `server/recceiver/recast.py:329-356` | Every message changes the pending object as specified, writes to no flushed transaction, and enqueues at most one |
| `CollectionSession.Session.Close` | `server/recceiver/recast.py:272-282` | Whatever is pending is dropped and one disconnect is flushed |
| `CollectionSession.Session.CommitEnded` | `server/recceiver/recast.py:294-306` | The end of a commit starts the next waiting one and changes no transaction |
| `Deployment.CommitsOfASession` | `server/recceiver/recast.py:272-306` | Over the life of a session and any commit outcomes: the factory gets a prefix of its data transactions followed by one disconnect, and all of them once the chain rests; only the first data transaction is initial |
| `DbProcessor.InsertNames` | `server/recceiver/dbstore.py:152-159` | Inserting names row by row succeeds if and only if none repeats, and then adds exactly these |
| `DbProcessor.InsertAliases` | `server/recceiver/dbstore.py:152-159` | Inserting all aliases succeeds if and only if every aliased record exists and no name repeats; the order of the records does not matter |
| `DbProcessor.InsertInfos` | `server/recceiver/dbstore.py:161-172` | Inserting all infos succeeds if and only if their records exist, later values replacing earlier ones |
| `DbProcessor.Processor.Fill` | `server/recceiver/dbstore.py:122-172` | The statements in their order have the effect of the one-piece meaning of a transaction, failures included |
| `DbProcessor.Processor.Commit` | `server/recceiver/dbstore.py:88-172` | A whole commit: the row is created, looked up, filled or deleted as specified; a failure leaves the database as it was but keeps the row id in the dictionary |
| `DbProcessor.Processor.Cleanup` | `server/recceiver/dbstore.py:78-83` | Exactly the clients of this server are removed |
| `DbServers.LinksSurviveIff` | `server/recceiver/dbstore.py:91-120` | Each session keeps a row of its own if and only if none opens with a transaction that refers to a record it does not add or repeats a name of one; that is also exactly when an opening fails |
| `DbServers.SessionsAreIsolated` | `server/recceiver/dbstore.py:88-126` | A commit of one session leaves the row and the tables of every other session that opened alone |
| `DbServers.SucceedsIffAccepted` | `server/recceiver/dbstore.py:88-172` | A commit succeeds if and only if it is an opening that stands by itself, or comes from a known session and refers to no missing record and repeats no name in its tables |
| `DbServers.EachSessionByItself` | `server/recceiver/dbstore.py:88-172` | Over every run of interleaved sessions, some of which may fail to open and are not heard of again, the tables of each session that opened are those its own effective transactions make alone |
| `DbServers.RowsCarryTheirEndpoint` | `server/recceiver/dbstore.py:94-112` | Over the same runs, the row of every session that has not failed to open is this server's and carries the host and port of its latest opening |
| `DbServers.NoRowIsLeft` | `server/recceiver/dbstore.py:114-120` | Over the same runs, if sessions open once, every row belongs to a session that is still there |
| `DbServers.FailedOpeningErasesTheNext` | `server/recceiver/dbstore.py:94-120` | Why nothing more may come from a session that failed to open: the next session gets the same row id, and a disconnect of the first would delete it. `Recording.FailedSessionsAreDropped` shows that it never comes |
| `Controller.ProcessorController.HandOut` | `server/recceiver/processors.py:119-138` | Handing a transaction to the processors in turn reaches the specified ones and leaves the specified ones on the list, also when some fail at once and are removed while the list is gone through |
| `Controller.ReachedIff` | `server/recceiver/processors.py:131` | A processor is passed over if and only if the one before it on the list was reached and failed at once |
| `Controller.KeptIff` | `server/recceiver/processors.py:120-129` | A processor leaves the list if and only if it was reached and failed |
| `Controller.ProcessorController.Punish` | `server/recceiver/processors.py:120-129` | A failure that is not a cancellation takes exactly that processor off the list |
| `Controller.FailedIff` | `server/recceiver/processors.py:133-138` | The session is told of a failure if and only if some processor failed and none before it on the list was cancelled |
| `Recording.RecordingGoesOnIff` | `server/recceiver/processors.py:119-131` | Over every run of sessions handing over, the SQL consumer executing and ends being reported, in any order: the consumer is on the list if and only if no transaction was reported back that it could not accept |
| `Recording.GivenIff` | `server/recceiver/processors.py:119-131` | A transaction of any session is given to the consumer if and only if, so far, none of anybody's was reported back that it could not accept; see Findings |
| `Recording.FailedSessionsAreDropped` | `server/recceiver/recast.py:294-306` | After a failed transaction of a session, the consumer is given nothing more of that session, its disconnect included |
| `Recording.EarlyLossEndsRecording` | `server/recceiver/dbstore.py:91-92` | At any time, a connection lost before its session's first flush takes the consumer off the list; see Findings |
| `Recording.ExecutedIsHanded` | `server/recceiver/recast.py:294-306` | As long as none was refused, what has been executed of a session is what it handed over, in order, once all of it is executed |
| `DbServers.OpeningsDoFail` | `server/recceiver/dbstore.py:161-172` | A first transaction with an info for a record it does not add cannot be inserted |
| `Slots.SlotsAreAccounted` | `server/recceiver/recast.py:365-395` | Over every run of arrivals, repeated Dones and losses: the count equals the open active connections and stays within the limit, the wait list is exactly the open connections never served, nobody waits while a slot is free, slots are given in arrival order, and each is given back at most once |
| `Slots.FirstComeFirstServed` | `server/recceiver/recast.py:372-383` | If a later connection was served and an earlier one was not, the earlier one was lost |
| `Slots.WaitingIsBounded` | `server/recceiver/recast.py:372-383` | Whoever is at place k of the wait list has left it by the (k+1)-th release, however many arrive later |
| `CastServer.CastFactory.BuildProtocol` | `server/recceiver/recast.py:385-395` | An arrival takes a slot or queues, as specified |
| `CastServer.CastFactory.StopWaiting` | `server/recceiver/recast.py:373-377` | Removing a connection from the list of objects removes its number from the specified list |
| `CastServer.CastFactory.IsDone` | `server/recceiver/recast.py:372-383` | A release passes the slot to the longest waiting connection, which is resumed and greeted with its timer running, or frees it; nothing happens to those that go on waiting |
| `CastServer.CastFactory.DoneArrives` | `server/recceiver/recast.py:86-185` | Header and body of a Done together give the slot back once, restart the timer and send a ping if none is out, exactly as specified for slots and timer |
| `CastServer.CastFactory.ConnectionLost` | `server/recceiver/recast.py:58-65` | A loss gives back what the connection still holds, or its place in the queue, and stops its timer |
| `Admission.UploadersHoldSlots` | `client/castApp/src/casttcp.c:46-71` | In every interleaving of many clients and the server, with greetings and Dones in flight and losses on either side, a client that uploads over a live connection holds a slot, so at most the limit upload at once |
| `Admission.SlotsAreInUse` | `server/recceiver/recast.py:47-56` | Behind every held slot there is a greeting on its way, an upload, a Done on its way, or a client that has closed |
| `KeepAlive.OnePingAtATime` | `server/recceiver/recast.py:67-81` | In every run a connection that is not being closed has exactly one timer, set from the latest header or ping, and at most one unanswered ping |
| `KeepAlive.LatestPingIsRemembered` | `server/recceiver/recast.py:71-81` | In every run the server waits for an answer exactly while a ping is out, that is, since a Done or an expiry no Pong has come, and remembers the nonce that was drawn for the latest ping and when it was sent |
| `KeepAlive.HeardIsLatest` | `server/recceiver/recast.py:86-87` | The timer counts from the latest message, or from the greeting |
| `KeepAlive.ClosedIff` | `server/recceiver/recast.py:72-135` | The ping logic closes a connection if and only if a Pong does not carry the nonce the latest ping was sent with, or the timer expires while a ping is out |
| `KeepAlive.ClosedOnlyAfterSilence` | `server/recceiver/recast.py:72-81` | An expiry closes the connection if and only if a ping is out, and then the latest ping was sent and every message handled at least the timeout before |
| `KeepAlive.PromptClientsStay` | `server/recceiver/recast.py:122-135` | A client whose every Pong carries the nonce the latest ping was sent with, and that lets no timeout pass while a ping is out, is never closed |
| `KeepAlive.SilentClientsAreClosed` | `server/recceiver/recast.py:67-81` | After its last handled message a silent client is closed at twice the timeout, at once the timeout if a ping was out, and not before |
| `KeepAlive.TalkersStay` | `server/recceiver/recast.py:67-87` | Over every run, expiries included, in which no timeout passes without a message from the client: it is never closed, although it answers no ping and one is out since its Done |
| `CastServer.CastReceiver.PongArrives` | `server/recceiver/recast.py:86-135` | Header and body of a Pong together equal the specified step |
| `CastServer.CastReceiver.TimerExpires` | `server/recceiver/recast.py:67-81` | The expiry of the timer equals the specified step |
| `Framing.SegmentationDoesNotMatter` | `server/recceiver/recast.py:83-102` | From any settled state, feeding pieces ends where feeding the whole ends |
| `Framing.ParsingInvertsPrinting` | `server/recceiver/recast.py:86-102` | Frames cut in any way: the known messages that are long enough are delivered in order and unchanged, empty and short ones skipped, nothing left over |
| `Framing.UnknownMessagesAreFatal` | `server/recceiver/recast.py:204-206` | The connection is lost if and only if some message with an unknown id has a body; see Findings |
| `Framing.GarbageIsFatal` | `server/recceiver/recast.py:86-93` | Good frames followed by something without the magic number: the frames are delivered, then the connection is dropped, however the bytes are cut |
| `Framing.Receiver.DataReceived` | `server/recceiver/recast.py:43-45` | The buffer loop computes the specified function |
| `Messages.DecodeInvertsEncode` | `server/recceiver/protocol/messages.py:141-163` | Every message within its field widths survives encoding and decoding, and its body is the fixed part the receiver asks for plus its texts |
| `Messages.EncodeInvertsDecode` | `server/recceiver/protocol/messages.py:151-163` | A body that decodes is the encoding of what it decodes to, up to padding bytes |
| `Messages.ExtraBytesAreRejected` | `server/recceiver/protocol/messages.py:21-29` | A good body with anything appended is rejected; see Findings |
| `Caster.RecordExactOrRejected` | `client/castApp/src/caster.c:192-233` | A record sent with any string lengths is received exactly if type and name fit their length fields and are not empty, and rejected otherwise |
| `Caster.AliasExactOrRejected` | `client/castApp/src/caster.c:235-238` | The same for an alias |
| `Caster.InfoExactOrRejected` | `client/castApp/src/caster.c:240-268` | The same for an info, whose value may be empty |
| `Sending.PutSends` | `client/castApp/src/sockhelpers.c:402-424` | With any partial sends and interruptions: success means everything is on the wire, failure a proper prefix |
| `Sending.PutSucceedsIff` | `client/castApp/src/sockhelpers.c:402-424` | A buffer is sent if and only if it fits into what the socket takes before its first failure |
| `Sending.PutAllSends` | `client/castApp/src/caster.c:192-219` | Buffers sent in turn: success means all of them are on the wire, failure a proper prefix of them together |
| `Caster.Socket.SendAll` | `client/castApp/src/sockhelpers.c:402-424` | The loop equals the specified send for everything the socket may do |
| `Caster.RAPartsAreFrame` | `client/castApp/src/caster.c:192-219` | The buffers of a record or alias make up one frame whose header announces exactly the body behind it |
| `Caster.InfoPartsAreFrame` | `client/castApp/src/caster.c:240-268` | The same for an info |
| `Caster.Client.SendRA` | `client/castApp/src/caster.c:192-219` | Sends these buffers in turn, up to the first failure, and reports it |
| `Caster.Client.SendRecord` | `client/castApp/src/caster.c:221-233` | As above, and the record id is used up even if the send fails |
| `PdbPush.PushRecord` | `client/castApp/src/dbcb.c:80-136` | Sends as specified, with the status of the description, if there is one, in place of that of aliases and infos |
| `PdbPush.RecordIsSentIff` | `client/castApp/src/dbcb.c:80-136` | All sends of a record went through if and only if the wire carries exactly the record, its aliases, its non-empty infos and its description |
| `PdbPush.LossIsHiddenIff` | `client/castApp/src/dbcb.c:100-136` | A push reports success although the wire does not carry the record, if and only if an alias or info could not be sent, the record has a description, and that could be sent; see Findings |
| `PdbPush.HiddenLoss` | `client/castApp/src/dbcb.c:100-136` | The socket on which it happens, and what is then on the wire |
| `PdbPush.LossIsPossibleIff` | `client/castApp/src/dbcb.c:100-136` | There is a socket on which that happens to a record with a type and a name, if and only if the record has a description and an alias or a non-empty info besides |
| `PdbPush.PushPdb` | `client/castApp/src/dbcb.c:138-166` | Sends environment and records as specified, up to the first push that reports a failure, under consecutive ids |
| `PdbPush.RecordsAreSentIff` | `client/castApp/src/dbcb.c:138-166` | All sends went through if and only if the wire carries exactly the messages of all records in order |
| `PdbPush.IncompleteIff` | `client/castApp/src/dbcb.c:138-166` | Success is reported without everything being sent if and only if the push of some record hides a loss |
| `PdbPush.AnswerPings` | `client/castApp/src/casttcp.c:75-101` | Receives and answers as specified, up to the first failure |
| `PdbPush.PingsAreAnswered` | `client/castApp/src/casttcp.c:75-101` | This goes well if and only if every message is well-formed and every ping got its own nonce back, in order |
| `PdbPush.DoCasterTcpPhase` | `client/castApp/src/casttcp.c:40-101` | Greeting, the server's greeting, process database, Done and answers in that order as specified, up to the first reported failure |
| `PdbPush.UploadIsSentIff` | `client/castApp/src/casttcp.c:40-71` | The upload went through completely if and only if the wire carries exactly greeting, process database and Done |
| `Pipeline.UploadHasClientShape` | `client/castApp/src/dbcb.c:80-166` | The client's stream has the shape on which cut points are safe, each record id added once |
| `Upload.UploadFoldsToTables` | `client/castApp/src/dbcb.c:80-166` | The client's messages one by one build exactly its process database |
| `Pipeline.EncodersAgree` | `client/castApp/src/caster.c:192-268` | Within the field widths the C client's bytes are those of the Python encoders |
| `Pipeline.UploadReachesTheTables` | `server/recceiver/recast.py:83-102` | Framing, decoding, batching and committing composed: whatever the pieces, the limit and the clock, the tables end up as exactly the process database |
| `PdbPush.ClientBytesReachTheTables` | `client/castApp/src/casttcp.c:46-71` | The same from the bytes the C client writes |
| `PdbPush.CompleteUploadsReachTheTables` | `client/castApp/src/casttcp.c:40-71` | The same for the bytes a complete upload leaves on the wire of a new connection |
| `Deployment.SaneCommitsSucceed` | `server/recceiver/dbstore.py:88-172` | The commits of a session whose transactions make sense, as far as they reach the database, all succeed, whatever other commits it executes in between |
| `Deployment.ExecutedUploadIsRows` | `server/recceiver/recast.py:284-306` | An upload whose transactions were executed, among those of many sessions, has become exactly the rows of its client |
| `Deployment.EveryClientGetsItsRows` | `server/recceiver/processors.py:119-138` | From the C client's bytes to its rows, with many sessions handing over, and executions and reports in any order: as long as nobody's transaction was reported back that could not be accepted, the rows are exactly the process database |
| `Deployment.AloneIsARun` | `server/recceiver/dbstore.py:88-112` | The commits of any one session whose transactions make sense, in an empty database, are a run of the kind the previous row speaks of |
| `NameQuery.PackNames` | `server/recceiver/cf/adapter.py:65-78` | The loop computes the specified packing |
| `NameQuery.QueriesLoseNothing` | `server/recceiver/cf/adapter.py:65-79` | The queries taken apart give back all names in order |
| `NameQuery.QueriesAreShort` | `server/recceiver/cf/adapter.py:65-79` | Every query is within the limit or a single name |
| `NameQuery.PackingIsOptimal` | `server/recceiver/cf/adapter.py:65-79` | No cutting of the names into consecutive queries within the limit needs fewer queries |
| `Sweep.RunClean` | `server/recceiver/clean_tool.py:43-66` | For any page size a live sweep ends and reports how many channels of the receiver were Active; each of these is then solely Inactive under the sweep's account, with its name, account and all other properties in order as before, and no other channel is touched; a dry run changes nothing and reports the first page |

## Left out

- Twisted: reactor, transports, Deferred internals, worker threads and the cancellation bridge of
  `processor.py:177-221`. A Deferred chain is a queue with one commit in flight, a commit to ChannelFinder one
  serial step, and the stateful protocol a buffer that calls its handler when enough bytes are there.
- Sockets, polling, connecting and the receive helpers of the C client; `shRecvIgnore` reads whole buffers rather
  than the remaining count, so exact consumption of oversized messages is not claimed. Received messages are a list.
- Agreement.AgreementOverRuns: aliases are off, each write lands once as a whole, ids are not reused, ChannelFinder
  holds nothing under the id of an IOC that first commits, and no name is added again by an IOC that serves it
  (`Agreement.OpeningAgreesIff` and `Agreement.FollowUpAgreesIff` show that the last two are exactly what is
  needed); the index theorems hold with aliases too, and partial writes and retries are covered by `Pushing` and by
  the counterexamples under Findings.
- The alias branches of the ChannelFinder diff (`processor.py:690-709`, `766-793`), which compare names with channel
  objects. `_remove_aliases` is not modelled: no transaction has both the records and the names to delete it needs.
- How IOC infos are put together from a transaction (`processor.py:334-400`): they are parameters. A property
  without a value is the empty text.
- Batching.BatchingPreservesMeaning: streams where an id is added twice, where an alias or info has no record, or
  where an aliased record is deleted are excluded; for the last the transaction fails, as shown.
- DbServers.EachSessionByItself: no two open clients of one server share an endpoint, and nothing more comes from a
  session that failed to open, which `Recording.FailedSessionsAreDropped` shows.
- Recording.RecordingGoesOnIff: one SQL consumer; stopping the service, which removes this server's rows, is
  `DbProcessor.Processor.Cleanup` and not part of a run.
- Deployment.EveryClientGetsItsRows: says nothing about the rows once some transaction was refused; the rows are then
  those of the transactions given before, by `DbServers.EachSessionByItself`.
- Processor.CfProcessor.Commit: aliases are off, as in the diff; an initial commit does not reuse an id that still has
  channels, for which `ChannelIndex.StepKeepsInvExactly` shows that the index breaks.
- Processor.CfProcessor.PushToCf: endless retrying is bounded by the number of attempts after which the service is
  stopped. A cancellation counts with the request it comes in, or with the one before if none is out.
- Slots.SlotsAreAccounted: a paused connection delivers no Done.
- Messages before the greeting, a second greeting, and messages after the server has asked to close a connection.
- KeepAlive.PromptClientsStay: a Pong before any ping is an attribute error in the source; it counts as a wrong answer.
- The clock is read once per message, and a transaction's deadline is never zero.
- PdbPush.AnswerPings: shutting down the client is the end of the received list; the end of the connection is an error.
- PdbPush.PushPdb: glob patterns for excluded records are applied before; the list holds the remaining ones.
- SQL text, connection pooling, and the choice among several rows with one endpoint, which is arbitrary.
- UTF-8: text on the wire is bytes, and text in ChannelFinder is characters, without a conversion between them.
- Sweep.RunClean: a channel has the status property once, and nobody else writes meanwhile; the service's own
  retry loop around the sweep is not modelled.
- The meaning of wildcards in name queries and limits on the size of ChannelFinder's answers to a push.
- Configuration parsing, logging, metrics, plugins, the UDP announcement and EPICS device support.
