# Wardu, verified

Wardu is a job service on Kubernetes. A scheduler stores jobs and creates worker deployments, a
dispatcher takes jobs from a RabbitMQ queue, wakes a worker pod and asks the runtime inside it to
start the job's process, and the runtime reports RUNNING processes by heartbeat. This project models
that life cycle and proves what every interleaving of it keeps.

The concurrent parts are protocols. One action is one access to something shared or one external
call; a run is a sequence of enabled actions (`Legal`, `After`), every external call can fail at
every moment, with or without its effect, and each theorem about `After(Init(), acts)` is about every
reachable state. The sequential parts are classes and methods in the form the code has. Both sides
are tied together: a heartbeat and a registration change the dispatcher's table by the functions
`Heartbeats.Fold` and `Heartbeats.Registered` in the class and in the protocol, `RuntimeServer.Server.Execute`
performs the protocol's `execute` actions, `Executor.Server.ExecuteJob` ends as the protocol's
goroutine does, `SchedulerServer.Server.CreateJob` is a run of the scheduler protocol, and
`ScaleWorker` decides by `Kubernetes.ScaleTarget` in both.

## Modules

- `Heartbeats`, `Attempts`, `Executions`, `Runtimes`, `Protocol`: the execution protocol. Any number
  of `executeJob` goroutines, Run calls, `execute` goroutines, heartbeat loops, reconnects, lost
  messages and deliveries. The loop reads an execution's status twice per heartbeat and the PID after
  that, and each read is its own action. `ProtocolInvariants` has the invariant, `ProtocolTheorems`
  the results. `ProtocolReports` says exactly which terminal statuses are reported, `ProtocolRegress`
  exactly which deliveries move the table back; `ProtocolWitnesses` has concrete reachable runs.
  `ProtocolSteps` tells field by field what single actions show.
- `Executor`, `Dispatcher`, `RuntimeServer`: the same steps as methods on the servers' own state.
- `Clock`: the loops' constants and what ideal timers make of them.
- `Delivery`, `DeliveryTheorems`: queue, prefetch window, consumer and semaphore. `Dispatch` joins them
  with the execution protocol, from the queued message to the attempt row.
- `Names`, `NameTheorems`: `generateDNSName` and `generateDeploymentName`.
- `Overrides`: overrides from the RunJob request through the JSON message into the job.
- `Kubernetes`, `Client`, `Scaling`: versioned API objects, the client's methods, and any number of
  concurrent `ScaleWorker` calls; `ScalingOutcomes` says what their outcomes mean.
- `Scheduler`, `SchedulerTheorems`, `SchedulerAlone`, `SchedulerServer`, `SchedulerOrphans`, `SchedulerBlocks`,
  `Bootstrap`: `CreateJob` as a workflow over five stores, and the start-up loop.

## What the code does not guarantee

Each of these is proved; the lemmas are named in brackets and in the table.

- The terminal status of an execution is reported exactly if the heartbeat loop stands between its two
  reads of that execution when the status is stored (`TerminalReportedIff`). In every other case, so
  whenever a process ends while the loop sleeps or visits another execution, no terminal heartbeat is
  ever generated and the dispatcher never shows the end. It may show PENDING for good after a success
  (`SuccessCanGoUnseen`).
- No step ever finishes the attempt row of a registered execution: it stays "running"
  (`RegisteredRowStaysRunning`).
- A delivery moves the table back exactly if it says RUNNING about an execution shown as terminal, and
  it then comes from a stream that its runtime has given up (`BackwardIff`). That happens
  (`OldStreamMovesTableBack`).
- A timeout is kept exactly if it is a whole number of seconds below 9223372800. Below 1 s it is absent,
  any other fraction is cut short, so that a process is killed that finishes in time, and from
  9223372800 s on, the first float32 above 9223371776 s, it is absent where the product wraps to zero
  or below and too short elsewhere (`TimeoutKept`). Every kind happens (`FractionsAreLost`,
  `AbsentAndTooShort`).
- An execution that never sent a heartbeat is reported stale at the very first tick, since its
  LastHeartbeat is the zero time (`NeverHeardIsReported`).
- Trimming comes before the cut, so a namespace's DNS name can end with a hyphen, which is not a
  label (`TrailingHyphenPossible`, `LabelIff`).
- Two images get one deployment name in a namespace exactly if the first 55 - |DNS| characters of the
  sanitised images agree up to hyphens at the end; with a DNS name of 55 characters or more every two
  images do (`SameNameIff`). The second of them can get no worker there (`CollidingImageFails`).
- An image whose sanitised text has a character outside [a-z0-9.-], such as the '@' of a digest, among
  the characters that are kept, or a dot in the wrong place, gets a name the API server refuses
  (`DeploymentNameValidIff`), and so does every job for it (`CreateJobSucceedsIff`).
- Workers are looked up by image alone, and the update changes the deployment name but not the
  namespace. Whatever the calls, an image's row carries the name that recovery generates exactly if
  the namespaces the image is used under agree on that name, as far as they admit one (`RowsNamedIff`,
  `TwoNamespacesBreakNames`); one namespace per image is enough (`RowsMatchRecovery`). Where they agree
  recovery always works (`RecoveryWorks`). The step that misnames a row is an effective update under a
  namespace with another name (`MisnamedIff`).
- If some row other than "wardu" has the DNS "wardu", as one named "Wardu" would
  (`CapitalTakesDefault`), the default row cannot be stored and start-up fails
  (`Bootstrap.Server.CreateDefaultNamespace`).
- If storing a new worker row fails after its deployment was created, every later `CreateJob` for the
  image under that namespace fails with "already exists" until somebody deletes the deployment, as
  long as the image is used under no other namespace (`FailedSaveOrphans`, `OrphanBlocksImage`). Under
  another one it succeeds exactly if the generated name is free there (`OrphanElsewhere`). Both
  happen (`OrphanArises`). An orphan also arises without any failing call, when another image's row
  already uses the generated name (`NameTakenOrphans`, `OrphanWithoutFault`), or when the answer to the
  creation of the deployment is lost (`LostCreationOrphans`).
- An image is blocked in a namespace, so that its jobs fail there (`BlockedFails`), while its generated
  deployment exists and its row names none that does. `BlockedIff` lists exactly the steps that block
  and the steps that free. In particular a job under a second namespace with another name blocks the
  image in the first, without any failure (`SecondNamespaceBlocksFirst`).
- A namespace whose quota or limit range was not made when its last creator gave up (`UnfinishedIff`,
  `UnfinishedArises`) is never completed by jobs (`UnfinishedForGood`), and start-up leaves it as it is
  too (`Bootstrap.Server.EnsureNamespace`). Only a recovery completes it.
- A NaN or infinite float in a RunJob request cannot be published (`OverridesSurviveTransport`).

## Model

| member | source | states |
|---|---|---|
| ProtocolTheorems.TableIsTruthful | services/dispatcher/server/grpc.go:110-148 | In every reachable state each entry of the dispatcher's table has the ids of a runtime execution, shows a status that execution really reached and is not ahead of it, and with SUCCEEDED the PID of the process that succeeded |
| ProtocolTheorems.TableNeverGoesBack | services/dispatcher/server/grpc.go:122-140 | If a superseded stream delivers nothing, no entry of the table disappears or moves backwards in PENDING < RUNNING < terminal between any two moments of a run, heartbeats before registration and lost messages included |
| ProtocolSteps.DeliverShows | services/dispatcher/server/grpc.go:122-140 | A delivery takes the oldest message of its stream; the record it is about then has its status, PID and arrival time and its own ids; nothing else changes |
| ProtocolSteps.RegisterShows | services/dispatcher/server/execute.go:115-125 | A registration adds a PENDING record without PID and heartbeat, with the goroutine's job and attempt |
| ProtocolSteps.RegisterIsNew | services/dispatcher/server/execute.go:115-125 | In every reachable state that record is new and is about an execution that exists |
| ProtocolSteps.ServeShows | services/runtime/server/grpc.go:38-71 | A served Run call leaves one new PENDING execution of the called runtime, with the call's ids |
| ProtocolSteps.ExecuteShows | services/runtime/server/execution.go:35-160 | Each access of an `execute` goroutine, in any interleaving: the status and the PID it stores, and that it is removed by the last one only |
| ProtocolSteps.TickShows | services/runtime/server/grpc.go:110-112 | A tick sets out to visit exactly what is in its runtime's map and ends only when all of it was visited |
| ProtocolSteps.CheckShows | services/runtime/server/grpc.go:113-115 | The first read passes over an execution exactly if it is not RUNNING |
| ProtocolSteps.BuildShows | services/runtime/server/grpc.go:122-129 | The message has the execution's ids, the status of the second read and the PID of the last |
| ProtocolSteps.SendShows | services/runtime/server/grpc.go:122-132 | A send puts the built message at the end of the open stream; a failed one sends nothing and gives the stream up; a dial opens a new one |
| ProtocolSteps.CallsMayFail | services/dispatcher/server/execute.go:37-113 | At every moment each external call of every goroutine may fail, a database write also after it took effect |
| ProtocolSteps.WorldIsFree | services/runtime/server/grpc.go:38-71 | A Run call is served once, also after its caller gave up, and streams may lose any tail and deliver their head, old ones included |
| ProtocolTheorems.TerminalHeartbeatIsLast | services/runtime/server/grpc.go:111-134 | Over every run and any number of reconnects a heartbeat with a terminal status is the last one generated for its execution; everything in flight was generated, with the execution's own ids and, for a success, its PID |
| ProtocolTheorems.SilenceIsForever | services/runtime/server/execution.go:36-46 | Once an execution is removed from its runtime and nothing about it is in flight, no continuation changes what the table shows of it |
| ProtocolTheorems.AttemptAccounting | services/dispatcher/server/execute.go:45-151 | Each attempt row still "running" has exactly one owner: a live executeJob, a registered execution, or a goroutine that returned by a dial error, a failed insert or a failed update; a row marked "failed" has neither a live executor nor a registered execution |
| ProtocolTheorems.RegisteredRowStaysRunning | services/dispatcher/server/execute.go:115-134 | The row of every registered execution exists, is for the same job and still says "running", whatever became of the process |
| ProtocolTheorems.ExecutionsHaveTheirOwnAttempt | services/runtime/server/grpc.go:38-71 | Every runtime execution belongs to a stored job and a stored attempt of that job, and no two executions share an attempt |
| ProtocolInvariants.RunInv | services/dispatcher/server/execute.go:21-135 | The invariant over ledger, calls, runtimes, streams and table is kept by every run |
| ProtocolInvariants.StepInv | services/dispatcher/server/execute.go:21-135 | Every single action keeps that invariant |
| ProtocolReports.TerminalReportedIff | services/runtime/server/grpc.go:112-129 | In every reachable state and for every store of a terminal status: a heartbeat with it can still be generated exactly if the loop stands between its two reads of that execution; then every continuation generates it as soon as the loop gets on; otherwise no continuation generates a terminal heartbeat or shows the execution as over |
| ProtocolReports.MissedMeansUnseen | services/runtime/server/grpc.go:113-115 | An ended execution whose end was never loaded to be sent has only RUNNING heartbeats and is not shown as over |
| ProtocolWitnesses.SuccessCanGoUnseen | services/runtime/server/grpc.go:112-115 | There is a reachable state with a succeeded execution that the table shows as PENDING in every continuation |
| ProtocolRegress.BackwardIff | services/dispatcher/server/grpc.go:122-140 | In every reachable state, whatever was delivered before: a step moves the table back exactly if it delivers a RUNNING about an execution shown as terminal, and such a message lies on a stream its runtime has given up |
| ProtocolRegress.RunAhead | services/runtime/server/grpc.go:73-137 | In every run the messages of the newest stream are not behind the table, and what an older stream says of an execution is not ahead of what a newer one says |
| ProtocolWitnesses.OldStreamMovesTableBack | services/runtime/server/grpc.go:73-92 | There is a reachable state that shows SUCCEEDED and in which delivering a message of the old stream shows RUNNING again |
| Attempts.PcStep | services/dispatcher/server/execute.go:21-135 | After every external call the state of the attempt row fits where the goroutine stands, and a row is only marked failed where it exists |
| Attempts.ThreadStep | services/dispatcher/server/execute.go:45-55 | Any goroutine's step keeps one owner per attempt id, the row's job equal to the owner's, and the job stored first |
| Executions.ExecStep | services/runtime/server/execution.go:35-160 | Each store of `execute` keeps stage, status, PID and history consistent and only appends: one RUNNING, one terminal status, then the removal |
| Runtimes.LoopStep | services/runtime/server/grpc.go:94-137 | One access of a heartbeat loop, at any moment relative to the `execute` goroutines, keeps messages true, streams ordered and terminal messages last |
| Runtimes.BeatFits | services/runtime/server/grpc.go:122-129 | Because the status is read before the PID and the PID stored before success, a heartbeat saying SUCCEEDED carries the process's PID |
| Executor.Server.ExecuteJob | services/dispatcher/server/execute.go:21-135 | One goroutine returns and leaves the attempt rows exactly as the protocol's does; it asks the runtime exactly if the load, the insert, the wake-up, the choice of the pod and the dial went well; the request has the job's and the drawn attempt's ids and, each for itself, the override's entrypoint, payload and timeout where one is set and not empty and the stored job's otherwise; exactly the execution that answered is registered |
| Executor.Server.FailAttempt | services/dispatcher/server/execute.go:137-151 | The attempt in memory is failed, finished and carries an error; its row, if there is one, keeps its job and says failed if the update took effect, and is as before otherwise |
| Executor.FinishFacts | services/dispatcher/server/execute.go:53-134 | For every way the calls can end: which way executeJob returns, told by the outcomes of the calls; it touches no other row, its row fits the way it returned, and the attempt is marked failed exactly on a worker, pod or Run failure and never on a dial failure |
| Executor.RunJobReachesRuntime | services/dispatcher/server/execute.go:37-102 | For every RunJob request that can be queued: what is decoded from the queue makes executeJob ask the runtime for the request's entrypoint, payload and timeout where it sets them, and the stored job's otherwise |
| Attempts.OnlyAfter | services/dispatcher/server/execute.go:32-125 | Each call of executeJob is made only after the one before it went well, in the order load, insert, wake-up, pod, dial, Run, registration; a row is about to be marked failed exactly after a failed wake-up, pod choice or Run call |
| Executor.FinishIsThread | services/dispatcher/server/execute.go:21-135 | From any ledger there are legal steps of the protocol's goroutine that end with the method's result and rows |
| Dispatcher.Server.Register | services/dispatcher/server/execute.go:115-125 | Adds one record under the execution's id, with its job, attempt and pod, PENDING, without PID or heartbeat, and leaves all others |
| Dispatcher.Server.Receive | services/dispatcher/server/grpc.go:122-140 | A message about an unknown execution is dropped; any other gives that record its status, its PID and its arrival time, also over an earlier one, and leaves all others |
| Dispatcher.Server.Heartbeat | services/dispatcher/server/grpc.go:110-148 | After the handler each record has status, PID and arrival time of the last message about it before the stream ended, and is as before if there was none; the return is clean exactly if the stream ended with end of file |
| Dispatcher.FoldAllRecords | services/dispatcher/server/grpc.go:113-140 | The same of the function the protocol and the monitor use, for every table, stream and execution |
| Dispatcher.SteadyNeverStale | services/dispatcher/server/grpc.go:138-227 | For any stream: if successive heartbeats of an execution arrive less than 30 s apart, it is stale at no read from the first of them until 30 s after the last |
| Dispatcher.NeverHeardIsReported | services/dispatcher/server/grpc.go:223-227 | An execution without any heartbeat is reported by an undisturbed pass at whatever time |
| Dispatcher.Server.CheckExecutions | services/dispatcher/server/grpc.go:208-239 | The list of records is copied once each and then walked without the lock, with heartbeats coming in before each read; the pass reports what `Reports` gives for that order |
| Dispatcher.ReportsExactly | services/dispatcher/server/grpc.go:223-227 | A pass reports each execution at most once, and exactly those whose heartbeat is missing or at least 30 s old at their own read, so a heartbeat that comes in before it suppresses the report |
| Dispatcher.QuietPass | services/dispatcher/server/grpc.go:223-227 | If no heartbeat comes in during the pass it reports exactly what is stale in the table, executions without any heartbeat included |
| RuntimeServer.Server.Run | services/runtime/server/grpc.go:38-71 | The execution is in the map, PENDING, before the caller gets its id |
| RuntimeServer.Server.Execute | services/runtime/server/execution.go:35-160 | Whatever the process does: one RUNNING store, then one terminal store, then one removal; success exactly if the process exits by itself, in time and with code 0; if the context is done at d before that, execute is over at exactly d + x for a process that exits x <= 10 s after SIGTERM and at d + 10 s for any other; the stores are the protocol's actions |
| RuntimeServer.Server.Tick | services/runtime/server/grpc.go:110-134 | Without interference a tick sends the RUNNING executions of the map in visiting order, up to the first failing send |
| RuntimeServer.TickContents | services/runtime/server/grpc.go:112-133 | What an undisturbed tick has to send is one message for each RUNNING record, with the record's ids and PID |
| RuntimeServer.QuietTick | services/runtime/server/grpc.go:112-133 | Such a tick sends nothing but RUNNING, exactly once for each RUNNING execution |
| RuntimeServer.StepsLegal | services/runtime/server/execution.go:48-150 | The accesses of every `execute` are enabled in order and end in the stated status, PID and history |
| RuntimeServer.DeadlineHolds | services/runtime/server/execution.go:92-159 | For a truncated timeout of n >= 1 s every process is over within n + 10 s exactly if the int64 nanosecond product is positive |
| RuntimeServer.FirstWrap | services/runtime/server/execution.go:92 | For the integers a float32 can hold the int64 product is exact exactly below 9223372800, and that value wraps to a negative duration |
| RuntimeServer.TimeoutKept | services/runtime/server/execution.go:92-159 | For every float32 timeout of t > 0 s, fractions included: no process outlives it by more than 10 s and no uncancelled process that succeeds in time is killed, exactly if t is whole and below 9223372800; below 1 s the first fails, for other fractions the second, and from 9223372800 on it goes by the sign of the wrapped product |
| RuntimeServer.FractionsAreLost | services/runtime/server/execution.go:92 | 0.5 s is no timeout, and 1.5 s kills a process that would exit with code 0 after 1.2 s |
| RuntimeServer.AbsentAndTooShort | services/runtime/server/execution.go:92-104 | 9223372800 s is no timeout, and 18446745600 s is one of 1526.290448384 s |
| Clock.HeartbeatLoop | services/runtime/server/grpc.go:94-137 | One stream: for any outcomes of its dial and sends it sends at the times `Sends` gives up to its end, and leaves the rest to the next stream 5 s later |
| Clock.StartHeartbeatLoop | services/runtime/server/grpc.go:73-92 | The outer loop, for any outcomes, sends exactly at the times `Sends` gives |
| Clock.SendsCount | services/runtime/server/grpc.go:73-137 | A heartbeat goes out for each successful send that follows a successful dial or send, and for nothing else |
| Clock.SteadySends | services/runtime/server/grpc.go:106-137 | While nothing fails the n-th heartbeat goes out 10 n s after the stream opened |
| Clock.FirstSend | services/runtime/server/grpc.go:73-110 | The first send comes 10 s after the stream opens plus 15 s per failed send and 5 s per failed dial |
| Clock.SendGap | services/runtime/server/grpc.go:73-110 | Successive sends with s failed sends and r failed dials between them are exactly 10 + 15 s + 5 r seconds apart |
| Clock.StaleIff | services/dispatcher/server/grpc.go:225-227 | A record is stale exactly if it has no heartbeat or one at least 30 s old |
| Clock.StaleBetween | services/dispatcher/server/grpc.go:225-227 | Between two accepted heartbeats an execution looks stale at some moment exactly if they are at least 30 s apart |
| Clock.ReconnectTolerance | services/dispatcher/server/grpc.go:223-227 | One reconnect with jitter under 5 s never trips the 30 s threshold; with equal delays it is reached exactly from a second failed send or a failed dial on |
| Clock.FirstReport | services/dispatcher/server/grpc.go:191-227 | If heartbeats stop at h, the first report comes in [h+30 s, h+60 s), no earlier tick since h reports it and every later one does |
| DeliveryTheorems.NothingLeavesUnstarted | shared/rabbitmq/rabbitmq.go:102-146 | Published messages are always split into ready, unacked, accepted and discarded; accepted ones were started, discarded ones do not parse, so a well-formed message not started is still with the broker; a message is started at most once more than the process was restarted |
| DeliveryTheorems.OneStartPerProcess | services/dispatcher/server/grpc.go:63-78 | From any moment of any run on, one process starts at most one goroutine for a message, and none if it was handled before |
| Dispatch.AcceptedIsHandled | services/dispatcher/server/grpc.go:60-80 | In one life of the dispatcher an accepted message has exactly one goroutine, which works for the message's job and is at work with a slot or has left its attempt row as its way of returning demands; at most MAX_WORKERS are at work |
| Dispatch.RowsComeFromMessages | services/dispatcher/server/execute.go:32-55 | Every attempt row belongs to a goroutine started for a well-formed message that names the row's job, and two rows come from two messages |
| Dispatch.StepInv | services/dispatcher/server/grpc.go:60-80 | Every step of queue, consumer and execution protocol together keeps goroutines, messages and slots in agreement |
| DeliveryTheorems.SettledForGood | shared/rabbitmq/rabbitmq.go:116-145 | A settled delivery stays settled the way it was |
| DeliveryTheorems.SettlementMeaning | shared/rabbitmq/rabbitmq.go:121-145 | In every reachable state: an ack on an open channel accepts the message, a rejection discards it, which happens to malformed ones only, and neither requeues; on a lost channel neither has an effect |
| DeliveryTheorems.HandlingMeaning | services/dispatcher/server/grpc.go:60-80 | What each step of handling does: into the client's buffer, to the consumer, into the handler exactly if the body parses, a slot, one goroutine start more, and the slot back |
| DeliveryTheorems.LossMeaning | shared/rabbitmq/rabbitmq.go:116-145 | A lost channel gives every unsettled message back to the queue, while buffer, consumer, slots and goroutines stay, and what is buffered can still be handled; a restart forgets them |
| DeliveryTheorems.ConcurrencyBound | services/dispatcher/server/grpc.go:60-80 | Semaphore occupancy is live goroutines plus the slot in hand and at most MAX_WORKERS; at most 2 * MAX_WORKERS messages are unsettled, with the client or in a goroutine, also after the channel is lost |
| DeliveryTheorems.BoundIsReached | shared/rabbitmq/rabbitmq.go:149 | For every MAX_WORKERS some run has exactly 2 * MAX_WORKERS messages in handling |
| Delivery.StepInv | shared/rabbitmq/rabbitmq.go:116-145 | Publishing, pushing, handling, acking, losing the channel with deliveries still buffered, and restarting each keep the delivery invariant |
| NameTheorems.GenerateDNSName | shared/k8s/namespace.go:193-210 | The pipeline returns the maximal runs of [a-z0-9] of the lowercased name, joined by single hyphens, cut after 63 characters |
| NameTheorems.JoinedLetters | shared/k8s/namespace.go:193-203 | Before the cut the result has exactly the letters and digits of the lowercased name, in order |
| NameTheorems.LowerAt | shared/k8s/namespace.go:194 | Upper-case ASCII letters get their lower case, all other ASCII characters stay |
| NameTheorems.AlnumExactly | shared/k8s/namespace.go:196-197 | The characters kept are the 26 letters and the 10 digits |
| NameTheorems.LabelIff | shared/k8s/namespace.go:193-210 | The result is a DNS label (section 2.1 of RFC 1123) exactly if something is left and the joined form has at most 63 characters or its 63rd is not a hyphen |
| NameTheorems.FixedPoint | shared/k8s/namespace.go:193-210 | Normalising twice changes nothing exactly if the result is empty or a label, and a third time never changes anything |
| NameTheorems.TrailingHyphenPossible | shared/k8s/namespace.go:199-207 | Some name gives a non-empty result that is not a label |
| NameTheorems.DeploymentNameShape | shared/k8s/worker.go:107-121 | A deployment name is a prefix of "worker-", DNS, "-" and the sanitised image, of 6 to 63 characters, without a hyphen at the end, and only hyphens and what is past 63 characters were dropped |
| NameTheorems.SanitizeAt | shared/k8s/worker.go:99-105 | '/', ':' and '_' become hyphens, upper-case ASCII letters their lower case, other ASCII characters stay |
| NameTheorems.SameNameIff | shared/k8s/worker.go:107-121 | Two images get one deployment name exactly if the first 55 - length(DNS) characters of the sanitised images agree up to hyphens at the end, or the DNS name has 55 characters or more |
| NameTheorems.DeploymentNameParts | shared/k8s/worker.go:107-121 | The name is the namespace part followed by what is kept of the image, or the trimmed namespace part alone |
| NameTheorems.DeploymentNameValidIff | shared/k8s/worker.go:99-121 | In a namespace with a label for its DNS name the generated name is a DNS subdomain (section 2.1 of RFC 1123) exactly if nothing is kept of the image or what is kept has only [a-z0-9.-], no misplaced dot and no dot at the end |
| NameTheorems.DeploymentNamesCollide | shared/k8s/worker.go:99-105 | "a/b" and "a:b" get one deployment name in every namespace |
| Names.CollapseHyphens | shared/k8s/namespace.go:201-203 | The loop ends after exactly ceil(log2 K) passes for a longest run of K hyphens and collapses every run to one hyphen |
| Names.LongestHalve | shared/k8s/namespace.go:202 | One pass takes a longest run of k hyphens to ceil(k/2) |
| Names.OnePassHalve | shared/k8s/namespace.go:201-203 | A pass does not change what collapsing all runs at once gives |
| Names.NormIsJoin | shared/k8s/namespace.go:193-210 | The form that no step of the pipeline changes is the join of the words |
| Names.NormSquash | shared/k8s/namespace.go:196-197 | Replacing the runs outside [a-z0-9-] keeps that form |
| Names.CeilLog2Exact | shared/k8s/namespace.go:201-203 | The number of passes is the exact rounded-up logarithm |
| Overrides.BuildOverrides | services/dispatcher/server/grpc.go:150-189 | The overrides are the request's five fields as they are, or nil exactly if all are unset |
| Overrides.Job.ApplyOverrides | shared/models/job.go:87-113 | Each set field replaces the job's, empty payload and entrypoint are ignored, explicit zeros are kept |
| Overrides.MessageRoundTrip | shared/rabbitmq/rabbitmq.go:20-33 | A message can be encoded exactly if its floats are finite, and decodes to itself |
| Overrides.MessageMembers | shared/rabbitmq/rabbitmq.go:20-25 | The body has exactly the members job_id, attempt and priority, and overrides if there are any |
| Overrides.OverrideMembers | shared/rabbitmq/rabbitmq.go:27-33 | Each override that is set is a member under its own name, and an absent one is not |
| Overrides.OverridesSurviveTransport | services/dispatcher/server/grpc.go:88-108 | For every request and job, building, encoding, decoding and applying gives the field by field override, and applying again changes nothing |
| Scaling.ScalingIsAtomic | shared/k8s/worker.go:123-262 | Concurrent ScaleWorker calls behave like compare-and-swap: the writes replay to the cluster's counts, each committed count is what an indivisible call would have written at that moment, within its limit, and from 0 for a wake-up |
| ScalingOutcomes.StepMeaning | shared/k8s/worker.go:191-262 | In every reachable state: a call ends as skipped exactly at a read of a count that is nonzero for a wake-up or equal to the requested one; at any other count it goes on to write over the object it read; the write, if that object is still there, leaves the requested count, logged, and waits exactly for a worker that was asleep |
| ScalingOutcomes.FailedIff | shared/k8s/worker.go:123-262 | An answered step fails a call exactly if the cluster refuses what it asks: the second read still finds nothing, a name is not admitted, the namespace is gone, or the object written over has changed |
| ScalingOutcomes.ScaledMeansCommitted | shared/k8s/worker.go:229-262 | In every run a call that succeeded by scaling has a write of its own in the log, of the requested count to its deployment |
| ScalingOutcomes.SkippedHadEnough | shared/k8s/worker.go:191-211 | In every run a call that ended without a write had a moment at which the count was enough |
| ScalingOutcomes.AloneScales | shared/k8s/worker.go:123-262 | Alone and without faults a call within its limit fails exactly if the deployment is missing and cannot be recovered under its name; otherwise the deployment has the requested count, except that a wake-up leaves one that is awake as it is |
| ScalingOutcomes.AloneIsRun | shared/k8s/worker.go:123-262 | Running alone is a run of the protocol |
| ScalingOutcomes.BeyondLimitFails | shared/k8s/worker.go:124-137 | A call beyond its limit fails at once and changes nothing |
| Scaling.OneWakeUp | shared/k8s/worker.go:191-249 | Two wake-ups of one deployment commit only if something other than wake-ups wrote or deleted it in between, so among wake-ups alone at most one per deployment commits |
| Scaling.NeverLowered | shared/k8s/worker.go:191-249 | No step of a wake-up and no recovery step lowers or removes an existing deployment |
| Scaling.LimitIsSound | shared/k8s/worker.go:124 | The limit is truncated to 32 bits; what passes is within the row's limit exactly if that is at least -2^31, and both are the same exactly in the int32 range |
| Scaling.StepInv | shared/k8s/worker.go:123-262 | Every caller's step and every outside edit or deletion keeps log, versions and pending writes consistent |
| Client.Client.CreateNamespace | shared/k8s/namespace.go:17-62 | Only adds, and only under the name's DNS; on success namespace, quota and limit range exist, what was there is as it was, and what was made has the figures of the limits merged field by field; without faults it succeeds exactly if the name gives a DNS label |
| Client.MergeLimits | shared/k8s/namespace.go:18-47 | A positive limit of the row wins, any other gives way to the default |
| Client.MergedFields | shared/k8s/namespace.go:18-47 | Each limit, with its default figure: 10 workers, 50 jobs, 20 pods, 100 and 500 milli CPU, 256 and 512 MB |
| Client.MergedPositive | shared/k8s/namespace.go:20-47 | Merged limits are all positive, and a row is taken over unchanged exactly if all its limits are positive |
| Client.Client.CreateWorker | shared/k8s/worker.go:20-85 | Creates the generated deployment with 0 replicas and leaves the others; answered, it succeeds or finds it existing exactly if the namespace exists and the name is admitted |
| Client.Client.RecoverWorker | shared/k8s/worker.go:390-422 | On success the generated deployment exists, whatever had been deleted, and what was made for its namespace has the row's merged figures; without faults it succeeds exactly if the row's name gives a label, that is the row's DNS or the DNS exists, and the generated deployment name is admitted |
| Client.Client.ScaleWorker | shared/k8s/worker.go:123-262 | On success the row's deployment has the requested count, except that a wake-up leaves one that is awake as it is; a missing one is recovered exactly if the row carries the generated name and both names are admitted; without faults it fails in no other case than that, or when a worker that was asleep does not get ready; beyond the limit nothing happens |
| Scheduler.StepInv | services/scheduler/server/grpc.go:45-166 | Every external call of CreateJob, failed or not, and every outside deletion keeps the tables, the queue and all pending calls consistent |
| SchedulerTheorems.CreateJobKeepsStores | services/scheduler/server/grpc.go:45-166 | In every run each job row refers to a stored worker and each message to a stored job; a successful autorun call put exactly one message with attempt 1 into the queue, and any other call none |
| SchedulerTheorems.RowsNamed | services/scheduler/server/grpc.go:88-135 | If the namespaces an image is used under agree on its generated name as far as they admit one, its row always carries the name that recovery generates, in one of them, and the API server admits it |
| SchedulerTheorems.RowsMatchRecovery | services/scheduler/server/grpc.go:88-135 | In particular if the image is used under one namespace |
| SchedulerAlone.RowsNamedIff | services/scheduler/server/grpc.go:88-135 | In every run with calls for the image under the given namespaces its row carries the name of its own namespace, exactly if these namespaces agree on the name as far as they admit one |
| SchedulerTheorems.MisnamedIff | services/scheduler/server/grpc.go:129-134 | In every reachable state a well-named row becomes misnamed exactly by an effective update of a call for its image under a namespace that generates another name |
| SchedulerTheorems.RecoveryWorks | shared/k8s/worker.go:139-174 | So after any deletions a wake-up without faults succeeds on every worker whose image's namespaces agree, and leaves its own deployment with at least one replica |
| SchedulerAlone.CreateJobSucceedsIff | services/scheduler/server/grpc.go:45-166 | Alone and without faults a CreateJob succeeds exactly if its namespace row exists with a label for its DNS, and the row's deployment exists there or the generated name is admitted, free and unused; then job, worker row and deployment belong together, and a namespace that was missing has been made with a quota and a limit range of the row's figures |
| SchedulerAlone.CollidingImageFails | services/scheduler/server/grpc.go:100-109 | CreateJob fails for an image whose generated name is that of another image's worker, unless it has a deployment there already; under a DNS name of 55 characters or more that is every second image |
| SchedulerAlone.AloneIsRun | services/scheduler/server/grpc.go:45-166 | Running alone is a run of the protocol |
| SchedulerAlone.TwoNamespacesBreakNames | services/scheduler/server/grpc.go:129-131 | For any two namespaces with different admitted deployment names for an image, some run with calls under these two leaves its row in the first and named after the second |
| SchedulerServer.Server.CreateJob | services/scheduler/server/grpc.go:45-166 | With any pattern of failing calls the method ends in the stores and with the result the protocol gives |
| SchedulerServer.FaultyIsRun | services/scheduler/server/grpc.go:45-166 | One call with any pattern of failures is a run of the protocol, so all that holds of every run holds after it |
| SchedulerServer.QuietIsAlone | services/scheduler/server/grpc.go:45-166 | Without failures it is the call whose success is characterised above |
| SchedulerOrphans.OrphanBlocksImage | services/scheduler/server/grpc.go:100-109 | While an image has a deployment but no row, no CreateJob for it succeeds, in any continuation without a deletion in which calls for the image name that one namespace |
| SchedulerOrphans.OrphanElsewhere | services/scheduler/server/grpc.go:100-109 | Alone, a CreateJob for an orphaned image fails under the orphan's namespace, and under any other succeeds exactly if names are admitted and the generated deployment and its name are free |
| SchedulerOrphans.FailedSaveOrphans | services/scheduler/server/grpc.go:106-109 | A failed store of a new worker row leaves such an orphan |
| SchedulerOrphans.LostCreationOrphans | services/scheduler/server/grpc.go:100-104 | So does a creation of the deployment whose answer is lost |
| SchedulerBlocks.BlockedIff | services/scheduler/server/grpc.go:88-135 | In every reachable state a step blocks an image in a namespace exactly if it creates its generated deployment while no row names it, gives its row a name that does not exist there, or deletes the deployment its row names while the generated one is another; and it frees the image exactly if it deletes the generated deployment or the namespace, gives the row a name that exists there, or creates the deployment the row names |
| SchedulerBlocks.BlockedFails | services/scheduler/server/grpc.go:88-135 | Where names are admitted and unused a CreateJob alone and without faults fails exactly if the image is blocked |
| SchedulerBlocks.SecondNamespaceBlocksFirst | services/scheduler/server/grpc.go:110-135 | For two namespaces with different admitted names for an image, two successful jobs block the image in the first |
| SchedulerBlocks.UnfinishedForGood | services/scheduler/server/grpc.go:73-86 | A namespace without quota or limit range that no call is creating stays so in every continuation until it is deleted |
| SchedulerBlocks.UnfinishedIff | shared/k8s/namespace.go:49-61 | In every reachable state a namespace gets there exactly when the last call creating it ends and leaves it incomplete |
| SchedulerBlocks.CreatorCompletes | shared/k8s/namespace.go:49-61 | In every run in which nobody deletes the namespace, an answered step of a call creating it goes on, ends with namespace, quota and limit range all there, or was refused a name that is no label; so only a fault leaves a namespace unfinished |
| SchedulerBlocks.ObjectsHaveTheirRowsFigures | shared/k8s/namespace.go:17-174 | In every run, with any faults and deletions, each quota and each limit range in the cluster has the figures of the one stored row with its DNS, merged with the defaults |
| SchedulerBlocks.UnfinishedArises | shared/k8s/namespace.go:53-55 | A run from the beginning ends with such a namespace, by a failed creation of the quota |
| SchedulerOrphans.OrphanArises | services/scheduler/server/grpc.go:100-109 | For any image and two namespaces that admit it some run from the beginning ends in an orphan under the first, and a longer one lets a CreateJob under the second succeed |
| SchedulerOrphans.NameTakenOrphans | services/scheduler/server/grpc.go:95-109 | Alone and without faults, for an image without row whose deployment name is admitted and free, CreateJob succeeds exactly if no other image's row uses the name, and otherwise leaves the deployment without a row |
| SchedulerOrphans.OrphanWithoutFault | services/scheduler/server/grpc.go:95-109 | Under DNS names x and x-y a run without any failing call or deletion orphans the image y-i after a job for i |
| NameTheorems.ShiftedName | shared/k8s/worker.go:107-121 | The image y-i under x and the image i under x-y get one deployment name |
| NameTheorems.LongNamesAgree | shared/k8s/worker.go:107-121 | Namespaces whose DNS names agree on 56 characters give every image one deployment name |
| Bootstrap.Server.CreateDefaultNamespace | services/scheduler/server/grpc.go:168-209 | Only ever adds; on success every normally named row has its namespace and "wardu" is stored, once; a complete installation is left as it is; without faults it succeeds exactly if each row's namespace is there at its turn or its name gives a label, and "wardu" is stored or no row has its DNS |
| Bootstrap.Server.InsertNamespace | shared/models/namespace.go:12-13 | The insert fails exactly if the database does or the DNS is taken |
| Bootstrap.CapitalTakesDefault | shared/k8s/namespace.go:193-210 | A row named "Wardu" is normal and has the DNS of the default row |
| Bootstrap.BootableIff | services/scheduler/server/grpc.go:175-191 | For rows named as this code names them that is: each row's namespace exists or its DNS is a label |
| Bootstrap.Server.EnsureNamespaces | services/scheduler/server/grpc.go:175-191 | The loop finds out whether "wardu" is stored and recreates what is missing |
| Bootstrap.Server.EnsureNamespace | services/scheduler/server/grpc.go:180-190 | A row whose namespace is missing is created again, with the row's own limits; one whose namespace is there leaves the cluster as it is, complete or not |

## Left out

- Wire formats, generated protocol buffer code, HTTP gateway, logging, environment reading, `main`
  functions, graceful shutdown: no property of the life cycle depends on them.
- The endless loops of `ConsumeJobs` and of the monitor are steps of a protocol, or one pass; they run
  concurrently with everything else.
- The requeue branch of `ConsumeJobs` (shared/rabbitmq/rabbitmq.go:133-139): the only handler never
  returns an error. After a lost channel the loop spins on empty deliveries without effect.
- Where a rejected message goes: it is dead-lettered under its key "job" while the failed queue is
  bound to "failed", so no arrival there is claimed.
- Executor.Server.ExecuteJob: runs without interference between its steps; the interleavings are those
  of `Protocol`.
- RuntimeServer.Server.Execute: likewise.
- RuntimeServer.Server.Tick: likewise; status changes between the two reads are in `Runtimes`.
- SchedulerServer.Server.CreateJob: likewise; the interleavings are those of `Scheduler`.
- Client.Client.ScaleWorker: likewise; the interleavings are those of `Scaling`. `WaitWorkerReady`
  and `SelectPod` are abstract, they succeed or fail.
- Dispatcher.Server.CheckExecutions: each unlocked read of LastHeartbeat sees one whole value.
- Dispatcher or runtime crashes in the execution protocol: a dispatcher restart is modelled for the
  queue only, so `Dispatch` is about one life of the process. A lost runtime would lose its executions.
- The API server's checks other than of names: pod templates (a missing image text), quantities, and that
  a limit range's requests are within its limits, which holds of every row this code stores.
- The waiter's send into the buffered channel `done` (services/runtime/server/execution.go:106-110): one
  send into one slot never blocks; the channel itself is not modelled.
- The context a Run call passes to `execute` is cancelled when the call returns; the model lets it be
  done at any moment, so it never claims that a prompt process succeeds.
- An empty entrypoint, which panics in `startProcess`; entrypoints are taken to be non-empty.
- Process pipes, log collection, the payload environment; a process starts or not, and exits or not.
- The conversion of the float32 timeout to an integer where it is out of range; it is given truncated.
- Id generation: ids are fresh. `UnixTime` of a heartbeat, which nobody reads.
- Scheduler.StepInv: worker rows without MaxReplicas and idle timeout; the database functions that
  update or delete namespaces are not called by these services.
- SchedulerTheorems.CreateJobKeepsStores: a publish that errors is taken not to have enqueued.
- NameTheorems.GenerateDNSName: characters are Unicode code points; a cut inside a multi-byte
  character cannot happen there, since only ASCII is left.
- SchedulerAlone.CreateJobSucceedsIff: column types are not modelled. A job's namespace name and an attempt's
  job id go to columns of type uuid (shared/models/job.go:17, shared/models/job_attempts.go:17), and where
  the database refuses the text the call fails; in the protocols that is one of the faults.
- NameTheorems.SameNameIff: letters outside ASCII are not lowercased, except the two whose lower case is ASCII,
  so the iff is about images whose other letters are ASCII.
- NameTheorems.DeploymentNameShape: images are cut by characters, the code cuts by bytes, which
  differs for images that are not ASCII.
- Overrides.MessageRoundTrip: JSON objects have distinct, exactly spelled member names.
- Bootstrap.Server.CreateDefaultNamespace: a failing insert of the default row is taken to have had no effect.
- RuntimeServer.TimeoutKept: is about values within the int64 range; what a conversion beyond it gives depends on the machine.
- DeliveryTheorems.ConcurrencyBound: MAX_WORKERS is taken to be at least 1.
- Message priorities, the text form of quantities, pod templates, address formatting. A row's MaxWorkers
  becomes MaxReplicas of its workers (shared/k8s/worker.go:81), which is a parameter here;
  MaxConcurrentJobs is never used.
- `BuildJobProto` and `BuildJobFromProto`: they copy fields.
- Retries, cancellation, autoscaling by queue depth and rate limits are named in the repository but
  not implemented.
