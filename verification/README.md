# Verification of the aikit adapters' concurrent session host and its data paths

A Dafny model of parts of the repository, with proofs.

**The session host.** `agent_session_host.rs` multiplexes many agent sessions over one ACP
connection: one reader thread takes messages off the wire and routes signals onto per-session
lanes, while callers open sessions, begin turns, interrupt them and stop the bridge.
`SessionHost` gives each locked region as a function on the host's state and keeps a log of what
happened; `HostState` is the same state as fields changed in place, each method proved to be its
region; `Connection` and `AcpAdapter` do the same for the adapter underneath. `SessionSystem` puts
them together with any number of caller threads, each standing between two locks, and the reader
standing between two of its own: a stop can fall between taking a waiter and registering its open,
between routing and delivering, and between the two halves of an interrupt. Proofs are at two
levels: over every sequence of regions (`HostHistory`, `HostTheorems`, `HostInterrupt`,
`HostRouting`, `HostEntries`), and over every causal run of the whole system (`SystemTickets`, `SystemMemory`, `SystemIdentity`,
`SystemOrder`, `SystemLanes`, `SystemVoices`, `SystemBindings`, `SystemEndings`, `SystemRouting`,
`SystemRecords`, `SystemAnswers`, `SystemNegotiation`, `SystemStops`), joined by a refinement
(`SystemOrder.RunRefines`). A causal run is one in which the provider answers only
requests it was sent. `SystemExamples` gives, as causal runs from a fresh system, at least one run for
each rule the code does not keep; the exact condition of each stands beside it below.

**The rest.** `Topology` (component containment as a forest), `Csv` and `MatrixMerge` (the
capability matrix: reader, writer and three-way row merge), `BatchRead` (the batched owner read),
`SkillSets` (closure of references), `ModelRoutes` and `RouteContents` (catalogue and route join),
`StoreNames` (bookmark stores), `Entities` and `EntityContents` (entity materialisation) and
`Payload` (cutting a payload's text).

Where the code and what is written about it differ, the model follows the code:

- `open_session` documents that one native session id cannot carry two canonical identities
  (`agent_session_host.rs:459-463`), but `state_register_open` does not look (1879-1900).
  `SystemExamples.OneNativeTwoIdentities` is a run while the bridge is up, and
  `SystemExamples.OneNativeAcrossAStop` one in which a stop has emptied the lane map and no open
  names an id still in it. `SystemBindings.OneIdentityIff` is the exact condition: no open is
  registered under an id a resident session holds.
- The host promises that a lane ends when the bridge stops (lines 17-19), but registering an open
  looks neither at `closed` nor at whether the native id has a lane already, which it then takes out
  of the map a stop goes by. `SystemExamples.LaneCanOutliveTheBridge` and `OneNativeTwoIdentities`
  are the two kinds of run; `SystemEndings.BridgeEndsItsLanesIff` is the exact condition, that
  neither kind of open is registered.
- A stop is said to queue every in-flight turn's record on its lane (1984-1987), but a lane's spool
  can refuse it and the refusal is dropped (2002). `SystemExamples.StopRecordCanBeRefused` is a run;
  `SystemLanes.LaneStreams` and `StopRecordsTakenUnlessFull` say which records a lane then holds.
- The host reads any `method` member as "no response" (2202-2205), the adapter only a string
  (`agent_connection.rs:1197-1208`). A response with, say, a null `method` is an answer to the
  adapter and none to the host, and its waiter waits on. `SystemExamples.AnswerCanSlipBy` is a run,
  `SystemMemory.KeptIffNoneSlipsBy` the condition.
- An interrupt finds its turn again by sequence alone (1774-1781), and a prompt error ends a turn
  without advancing it. `SystemExamples.InterruptCanGoAstray` is a run, `SystemOrder.SystemInterrupt`
  the condition.
- The matrix reader drops a last record that has no line end exactly when it is one quoted empty
  field (`Csv.UnfinishedLastRecord`).
- The merge calls itself a tool for non-overlapping edits, but lets two kinds of conflict through
  (`MatrixMerge.PreflightDecides`, `ConflictsCanPass`).
- More observed offers or reach never make a Model unavailable, but either can make it unusable
  (`ModelRoutes.AnOfferCanMakeAModelUnusable`, `AReachCanMakeAModelUnusable`; exactly when is
  `UseAfterMoreOffers`, `UseAfterMoreReach`).

## Model

| member | source | states |
|---|---|---|
| AcpAdapter.AcpV1ConnectionAdapter.Request | crates/aikit-adapters/src/agent_connection.rs:764-782 | a fresh id, remembered with what it is for; no remembered id is overwritten |
| AcpAdapter.AcpV1ConnectionAdapter.Emit | crates/aikit-adapters/src/agent_connection.rs:784-797 | the next sequence number goes to one signal |
| AcpAdapter.AcpV1ConnectionAdapter.OpenSession | crates/aikit-adapters/src/agent_connection.rs:1096-1165 | refuses an unsupported mode, unsupported directories, a missing native id, in that order and unchanged; otherwise one remembered open |
| AcpAdapter.AcpV1ConnectionAdapter.ApplyInitializeResult | crates/aikit-adapters/src/agent_connection.rs:799-850 | negotiates exactly the advertised modes, or refuses and keeps the old ones |
| AcpAdapter.AcpV1ConnectionAdapter.IngestOpen | crates/aikit-adapters/src/agent_connection.rs:877-936 | create takes the provider's id; every other mode keeps the one asked for and refuses a contradiction |
| AcpAdapter.AcpV1ConnectionAdapter.IngestResponse | crates/aikit-adapters/src/agent_connection.rs:853-957 | a response is matched to its request and forgets it, whatever it says |
| AcpAdapter.AcpV1ConnectionAdapter.Ingest | crates/aikit-adapters/src/agent_connection.rs:1197-1215 | each kind of message, a response with a method member that is no string among them, gives exactly the signals and the adapter state of its specification |
| SystemAnswers.PromptAnswerIsOneSignal | crates/aikit-adapters/src/agent_connection.rs:939-955 | an answer to a prompt that is no error is one signal for the prompted session: cancelled iff the provider says so, else completed with its reason, `end_turn` when it gives none |
| SystemAnswers.AnswersAreUsedUp | crates/aikit-adapters/src/agent_connection.rs:853-876 | an answer forgets its request and no other, whatever it says; one to nothing remembered changes nothing |
| SystemAnswers.InitializeAnswerNegotiates | crates/aikit-adapters/src/agent_connection.rs:799-850 | accepted iff it speaks version 1, and then the modes are creation and those advertised |
| SystemAnswers.OpenAnswerIsOneSignal | crates/aikit-adapters/src/agent_connection.rs:877-936 | one opened signal iff the answer fits what was asked, for the provider's id on create and the id asked for otherwise |
| SystemAnswers.OtherMessagesSpeakForTheirSession | crates/aikit-adapters/src/agent_connection.rs:1197-1215 | notifications and permission requests are one signal of their kind for the session they name, refused when they name none |
| SystemNegotiation.OpensFollowTheNegotiation | crates/aikit-adapters/src/agent_connection.rs:1096-1165 | in every run: an open is numbered and remembered iff the last accepted negotiation offers its mode and its directories and it names an id unless it creates |
| SystemNegotiation.RefusalsInOrder | crates/aikit-adapters/src/agent_connection.rs:1096-1165 | which refusal an open meets: the mode, then directories, then a missing id |
| SystemOrder.IngestOrders | crates/aikit-adapters/src/agent_connection.rs:784-797 | one message gives at most one signal, with the next number |
| HostState.HostState.RegisterControl | crates/aikit-adapters/src/agent_session_host.rs:1584-1616 | adds a waiter (and, for an open, its lane) unless stopped |
| HostState.HostState.BeginTurn | crates/aikit-adapters/src/agent_session_host.rs:1674-1716 | begins a turn unless stopped or one is in flight; the waiter and the turn appear together |
| HostState.HostState.Take | crates/aikit-adapters/src/agent_session_host.rs:1379-1389 | both waiter maps give up the token |
| HostState.HostState.RegisterOpen | crates/aikit-adapters/src/agent_session_host.rs:1879-1903 | binds the lane and the canonical session for each opened signal, whatever was bound and whether or not stopped |
| HostState.HostState.RecordTurn | crates/aikit-adapters/src/agent_session_host.rs:2033-2044 | the trail keeps the last 128 interruptions and the last record is kept |
| HostState.HostState.CloseTurn | crates/aikit-adapters/src/agent_session_host.rs:2046-2104 | one turn leaves with its record |
| HostState.HostState.FailTurn | crates/aikit-adapters/src/agent_session_host.rs:1966-1982 | a failed prompt ends its turn, with its record for the lane if there is one |
| HostState.HostState.PushUnattributed | crates/aikit-adapters/src/agent_session_host.rs:2026-2031 | the queue keeps the last 64 |
| HostState.HostState.ReachedLimit | crates/aikit-adapters/src/agent_session_host.rs:2133-2144 | the limit is reached once per turn, past its count |
| HostState.HostState.LaneFor | crates/aikit-adapters/src/agent_session_host.rs:1490-1506 | a bound lane first, else that of the first waiter, in the order of token texts, for a load of exactly this id |
| HostState.HostState.Route | crates/aikit-adapters/src/agent_session_host.rs:1477-1532 | the loop over a batch: state, deliveries and limited turns of every signal in order |
| HostRouting.BatchGoesWhereItBelongs | crates/aikit-adapters/src/agent_session_host.rs:1484-1532 | each signal of a batch goes to the lane bound to its native id, else to the first opener awaiting that id, else to nobody; exactly those with a lane are delivered, in order; a turn ends iff a terminal signal reaches it; the turns handed on to cancel are those logged as limited |
| SystemRouting.EverySignalGoesWhereItBelongs | crates/aikit-adapters/src/agent_session_host.rs:1484-1532 | the same of the next step of every causal run; a signal is unattributed iff it names no id or one neither bound nor awaited |
| SystemRouting.LimitedTurnsAreCancelled | crates/aikit-adapters/src/agent_session_host.rs:1532-1556 | in every causal run until a stop, the turns that ran into the limit are those taken up to cancel and then those the reader still has to, in order |
| HostState.HostState.StopBridge | crates/aikit-adapters/src/agent_session_host.rs:1984-2015 | the first stop ends every turn with a record offered to its lane, whose spool may refuse it, ends every bound lane and clears the waiters; later ones change nothing |
| HostState.HostState.ControlDisconnected | crates/aikit-adapters/src/agent_session_host.rs:1823-1838 | a dropped sender marks the host closed unless a transport error says why |
| HostState.HostState.Deliver | crates/aikit-adapters/src/agent_session_host.rs:1558-1574 | an event joins its lane, or a refusal stops the bridge |
| HostState.HostState.MarkInterrupt | crates/aikit-adapters/src/agent_session_host.rs:1718-1757 | the first half of an interrupt: marks the turn in flight at its sequence, once |
| HostState.HostState.FillInterrupt | crates/aikit-adapters/src/agent_session_host.rs:1758-1790 | the second half: fills in the commands if a turn there still shows the same sequence |
| HostTheorems.EveryRunIsLawful | crates/aikit-adapters/src/agent_session_host.rs:1477-2144 | after any sequence of regions the log is lawful and the state is its summary: every turn's count, sequences, limit and interrupt, every lane's claim, both queues |
| HostTheorems.TurnConservation | crates/aikit-adapters/src/agent_session_host.rs:1674-1716 | per native session, turns begun = records produced + one if in flight |
| HostTheorems.StoppedForGood | crates/aikit-adapters/src/agent_session_host.rs:1984-2015 | once stopped, none is in flight and none ever begins |
| SystemStops.FirstStopDecides | crates/aikit-adapters/src/agent_session_host.rs:1984-2015 | in every causal run the host is stopped iff some region came to a stop, and the first one decides the transport error |
| HostTheorems.RoutingConservation | crates/aikit-adapters/src/agent_session_host.rs:1484-1532 | every signal of every batch is routed once, in order, and nothing else is |
| HostTheorems.WireClosedAccounting | crates/aikit-adapters/src/agent_session_host.rs:2046-2104 | a wire-closed turn's record counts the signals since it began, ends at its terminal signal, fits its sequences, is limited iff L > 0 and signals >= L + 2, and reports only earlier interrupts |
| HostTheorems.LimitOnce | crates/aikit-adapters/src/agent_session_host.rs:2133-2144 | the limit path asks for a cancel at most once per turn |
| HostTheorems.InterruptionOrigin | crates/aikit-adapters/src/agent_session_host.rs:2051-2131 | a human interruption is recorded iff one was pending and the turn ended in an unlimited cancel or a failure of the host's own; a provider's iff an unasked cancel |
| SystemRecords.RecordsNameTheLanesSession | crates/aikit-adapters/src/agent_session_host.rs:2097-2157 | whatever ends a turn, its record carries the binding of the session its native id's lane belongs to, or an unbound one, and the turn's own session |
| SystemRecords.RecordsNameTheirSession | crates/aikit-adapters/src/agent_session_host.rs:2046-2157 | in every causal run every record goes to the lane its native id was bound to last, with that lane's resident binding; it is the turn's own session's iff the lane is, and always under fresh ids |
| SystemAnswers.AnsweredTurnStopsAsAnswered | crates/aikit-adapters/src/agent_session_host.rs:1379-1525 | in every causal run, with other threads in between: a turn closed by its prompt's answer stops as limited, else cancelled iff the answer says so, else completed with its reason |
| SystemAnswers.RefusalsGoWhereTheyBelong | crates/aikit-adapters/src/agent_session_host.rs:1398-1420 | what the adapter refuses reaches the caller it was taken from as a failure, or ends its prompt's turn as failed, with the record for its lane; with nobody to tell it breaks the bridge |
| SystemAnswers.AnswersReachTheirCaller | crates/aikit-adapters/src/agent_session_host.rs:1422-1427 | an accepted control answer reaches the caller that waits for it |
| SystemAnswers.FailuresBreakTheBridge | crates/aikit-adapters/src/agent_session_host.rs:1532-1557 | a deadline passed and a cancel that cannot be sent break the bridge; a request that cannot be written does not |
| HostTheorems.QueuesHoldTheLast | crates/aikit-adapters/src/agent_session_host.rs:2026-2044 | the trail is the last 128 interruptions ever, `unattributed` the last 64 signals ever, the last record the latest |
| HostInterrupt.InterruptInEveryRun | crates/aikit-adapters/src/agent_session_host.rs:1718-1790 | between the halves, over every run: if the second check passes, the pending interrupt is the one marked iff that turn did not end by a prompt error; and whenever the turn is still there the check passes |
| SystemTickets.RunKeepsTickets | crates/aikit-adapters/src/agent_session_host.rs:1584-1703 | in every causal run: waiters are for numbered requests, no two callers share one, and each fits its request while the adapter remembers it |
| SystemTickets.Correlation | crates/aikit-adapters/src/agent_session_host.rs:1379-1389 | waiter tokens are disjoint, below the next id and of the kind the adapter remembers, so no insert overwrites a live waiter |
| SystemMemory.KeptIffNoneSlipsBy | crates/aikit-adapters/src/agent_session_host.rs:2202-2214 | one action keeps every waited-for request remembered by the adapter iff it does not interpret a response marked with a method that is no string, to a request somebody waits for |
| SystemMemory.WaitedForIsRemembered | crates/aikit-adapters/src/agent_session_host.rs:1379-1398 | in every causal run without such an action, every waited-for request is remembered |
| SystemMemory.WaitersCorrelate | crates/aikit-adapters/src/agent_session_host.rs:1379-1398 | in such a run from the start each waiter's request is remembered as what the waiter is for: its handshake, its lane's open, its session's prompt |
| SystemExamples.AnswerCanSlipBy | crates/aikit-adapters/src/agent_session_host.rs:2202-2214 | a causal run in which a handshake's answer is used up by the adapter while its caller still waits |
| SystemTickets.RefusedPromptIsForgotten | crates/aikit-adapters/src/agent_session_host.rs:1690-1703 | the inclusion is strict: a refused turn leaves a remembered request nobody waits for |
| SystemIdentity.RunResides | crates/aikit-adapters/src/agent_session_host.rs:489-560 | in every causal run, one opener at the gate, every waiter serving its own canonical session, every prompt addressed to its binding |
| SystemIdentity.DroppedSenderMeansStopped | crates/aikit-adapters/src/agent_session_host.rs:1823-1838 | `control_disconnected` sees a dropped sender only after a stop |
| SystemOrder.RegionExplains | crates/aikit-adapters/src/agent_session_host.rs:1379-1474 | each step of a thread or the reader changes the host exactly as its locked region |
| SystemOrder.RunRefines | crates/aikit-adapters/src/agent_session_host.rs:1362-1575 | every causal run of the system is an admissible run of regions |
| SystemOrder.SystemTurnConservation | crates/aikit-adapters/src/agent_session_host.rs:1674-2015 | conservation, emptiness after a stop and lawful history, for every causal run of threads |
| SystemOrder.SystemInterrupt | crates/aikit-adapters/src/agent_session_host.rs:1718-1790 | the interrupt theorem with any other threads, reader and provider in between |
| SystemExamples.InterruptCanGoAstray | crates/aikit-adapters/src/agent_session_host.rs:1774-1790 | a causal run in which one caller's cancel commands are filled into another caller's interrupt of the next turn |
| SystemLanes.LaneStreams | crates/aikit-adapters/src/agent_session_host.rs:1531-1575 | while running, a lane's events and its queue are all that was routed to it; an ended lane holds a prefix of that and then those of the stop's records its spool took, all of them iff it refused none; a lane left open by a stop holds a selection in order |
| SystemLanes.StopRecordsTakenUnlessFull | crates/aikit-adapters/src/agent_session_host.rs:1996-2003 | a stop leaves an open lane all its records in order if its spool takes them and none if it refuses |
| SystemExamples.StopRecordCanBeRefused | crates/aikit-adapters/src/agent_session_host.rs:1988-2015 | a causal run that ends a turn by a stop: the record is the last turn's either way, and on the ended lane iff the spool took it |
| SystemLanes.LaneGrammarInEveryRun | crates/aikit-adapters/src/agent_session_host.rs:1507-1525 | on every lane each record the wire closed directly follows its terminal signal, a prompt error's record says so, and signal sequences strictly increase |
| SystemVoices.LaneSpeaksForOne | crates/aikit-adapters/src/agent_session_host.rs:1490-1506 | a lane is only ever sent signals naming one native id, the one it is bound to |
| SystemBindings.BoundOnce | crates/aikit-adapters/src/agent_session_host.rs:489-520 | a canonical session is bound at most once and its binding never changes |
| SystemBindings.IdentityPreserved | crates/aikit-adapters/src/agent_session_host.rs:521-560 | every resident binding carries its own canonical ref; an opener woken with signals finds exactly its own binding, in its mode and, for load, resume and attach, with the id it asked for, so `identity_not_preserved` cannot happen |
| SystemBindings.OneIdentityIff | crates/aikit-adapters/src/agent_session_host.rs:1879-1903 | in every causal run, stopped or not: no native id is bound to two canonical sessions iff no open was registered under an id a resident session held |
| SystemBindings.OpenKeepsMirrorIffFresh | crates/aikit-adapters/src/agent_session_host.rs:1888-1898 | registering an open while `sessions` and `lanes` are inverse keeps them so iff no lane is bound to the native id; else the session that had that lane is orphaned |
| SystemBindings.MirroredIff | crates/aikit-adapters/src/agent_session_host.rs:1879-1903 | in every causal run that has not stopped, they are inverse iff no bound native id was opened again |
| SystemExamples.OneNativeTwoIdentities | crates/aikit-adapters/src/agent_session_host.rs:1879-1903 | a causal run that binds one native id to two canonical sessions, after which a stop leaves the first one's lane open |
| SystemExamples.OneNativeAcrossAStop | crates/aikit-adapters/src/agent_session_host.rs:1888-1898 | a causal run that does so across a stop, though every id it opens is in no lane; the second opener is answered with success |
| SystemEndings.OpenKeepsAllIff | crates/aikit-adapters/src/agent_session_host.rs:1888-1898 | registering an open keeps every bound lane routed to while running and ended once stopped iff it did so before, the host runs and the native id has no lane |
| SystemEndings.BridgeEndsItsLanesIff | crates/aikit-adapters/src/agent_session_host.rs:1988-2015 | in every causal run: a stopped bridge has ended every lane a native session was ever bound to iff no open was registered for an id that had a lane, and none after the stop |
| SystemExamples.LaneCanOutliveTheBridge | crates/aikit-adapters/src/agent_session_host.rs:1424-1426 | a causal run that registers a lane after a stop, which then never ends, whatever follows |
| Topology.ResolveComponentTopology | crates/aikit-adapters/src/composition_topology.rs:68-137 | accepted iff the given list is a forest; the result then holds exactly the given containments in order and as roots, in order, what is mounted and contained by nothing; a refusal names the first offending edge, or a component on a cycle |
| Topology.AcceptedIffForest | crates/aikit-adapters/src/composition_topology.rs:82-123 | accepted iff endpoints mounted, no self-loop, one parent each, no closed chain |
| Topology.ResultDependsOnTheSetOfEdges | crates/aikit-adapters/src/composition_topology.rs:78-79 | order and repetition of the list matter to neither the topology nor the refusal |
| Topology.OneRootEach | crates/aikit-adapters/src/composition_topology.rs:112-130 | going up by parent_of, every mounted component comes to exactly one of the result's roots in fewer than \|mounted\| steps |
| Topology.TreesAreClosed | crates/aikit-adapters/src/composition_topology.rs:112-130 | an edge never crosses between roots' trees |
| Topology.SomethingMountedHasARoot | crates/aikit-adapters/src/composition_topology.rs:126-130 | there are no roots iff nothing is mounted |
| Topology.ReadersAgree | crates/aikit-adapters/src/composition_topology.rs:48-61 | children_of and parent_of of the result tell of exactly the given containments; its roots are what has no parent |
| Topology.ChildrenClimb | crates/aikit-adapters/src/composition_topology.rs:48-54 | children are listed in order |
| Topology.ChildrenRepeatIffRecordedTwice | crates/aikit-adapters/src/composition_topology.rs:48-54 | a child is listed twice iff two entries of different provenance record it |
| Csv.ParseCsv | crates/aikit-adapters/src/capability_matrix.rs:452-503 | the character loop computes the specified reading |
| Csv.RoundTrip | scripts/reconcile-matrix-merge.py:143-147 | reading what was written returns it, for all fields and either line end |
| Csv.WrittenBareIffPlain | scripts/reconcile-matrix-merge.py:143-147 | a field is written bare iff it holds no comma, quote or line break |
| Csv.ParsePrintParse | crates/aikit-adapters/src/capability_matrix.rs:452-503 | printing what any text was read as, and reading it again, changes nothing |
| Csv.UnfinishedLastRecord | crates/aikit-adapters/src/capability_matrix.rs:498-501 | a last record without a line end survives iff it is not one empty field |
| Csv.FailsIffLeftOpen | crates/aikit-adapters/src/capability_matrix.rs:495-497 | reading fails iff some field opens with a quote no lone quote closes |
| MatrixMerge.ById | scripts/reconcile-matrix-merge.py:112-121 | the loop computes the specified index |
| MatrixMerge.IndexDecides | scripts/reconcile-matrix-merge.py:112-121 | indexing succeeds iff every row has an id of its own, and then keeps every row in order |
| MatrixMerge.IndexRefusesWith | scripts/reconcile-matrix-merge.py:112-121 | a refusal is for the first row without an id or with one an earlier row has |
| MatrixMerge.BuildMergedTable | scripts/reconcile-matrix-merge.py:124-142 | the two loops compute the specified table |
| MatrixMerge.PreflightDecides | scripts/reconcile-matrix-merge.py:209-232 | a run goes ahead iff the branch deletes no row and every row in conflict was added by both or deleted by main |
| MatrixMerge.PreflightRefusesWith | scripts/reconcile-matrix-merge.py:209-232 | it names exactly the deleted rows, or else exactly those all three versions have and that conflict |
| MatrixMerge.RowMergeIsThreeWay | scripts/reconcile-matrix-merge.py:124-142 | each id appears once with the three-way merge of its row, main's order first, additions in the branch's; the columns are main's and then the branch's own in its order |
| MatrixMerge.ConflictsGoToTheBranch | scripts/reconcile-matrix-merge.py:218-223 | a conflict that passes comes out as the branch's row |
| MatrixMerge.ConflictsCanPass | scripts/reconcile-matrix-merge.py:218-223 | both kinds do pass |
| MatrixMerge.WrittenFileReadsBack | scripts/reconcile-matrix-merge.py:143-147 | the writer never meets an unknown column, and the matrix reader reads the merged file back row for row |
| BatchRead.ResolveBatch | crates/aikit-adapters/src/central_file_map.rs:531-605 | for any owner: every source answered by a call that asked it, at most n calls, ceil(n/256) when none fails or defers, None iff no call before the unknown-operation reply succeeded; a failure, a wrong count or a wholly deferred chunk answers each of its places, and else each entry does as another source's, a refusal or its own reading |
| BatchRead.ReadCurrentBatch | crates/aikit-adapters/src/central_file_map.rs:492-525 | faithful calls make the batch equal to single reads at every index; otherwise each place has its own source's answer; with entries that match or defer, it equals them iff no call defers its whole chunk; each place holds what that answer, decoded, means |
| BatchRead.FaithfulAnswersMatch | crates/aikit-adapters/src/central_file_map.rs:610-643 | an entry that settles a source carries what its single read answers |
| BatchRead.SingleReadMeans | crates/aikit-adapters/src/central_file_map.rs:414-450 | a single read is nothing, a denial, the owner's error, or what its reading means |
| SkillSets.EffectiveMembers | scripts/verify-native-skills.py:216-225 | the recursion with its accumulator, terminating on what is not on the stack |
| SkillSets.EffectiveIsReachable | scripts/verify-native-skills.py:216-225 | it refuses iff a repeat or an undeclared reference can be reached, else returns exactly the members of all reachable sets |
| SkillSets.RefusalIsTrue | scripts/verify-native-skills.py:218-221 | a refusal names a reference on a path that returns to it, or one nobody declares |
| SkillSets.CheckSkillSets | scripts/verify-native-skills.py:228-241 | the check passes iff the registry is sound: lists proper, nothing undeclared or circular, no member repeated in a set any descendant carries it for; a refusal blames the first set, and in it the first child, that is not right |
| ModelRoutes.Resolve | crates/aikit-adapters/src/actuation_model_routes.rs:174-191 | a condition is satisfied iff one is required and a binding is recorded |
| ModelRoutes.JoinModelRoutes | crates/aikit-adapters/src/actuation_model_routes.rs:422-573 | the nested loops compute the specified join |
| ModelRoutes.OffersArePartitioned | crates/aikit-adapters/src/actuation_model_routes.rs:539-555 | an offer is unmatched iff no offer of its provider and native id is claimed by id or alias |
| ModelRoutes.EntriesOnlyMatchMore | crates/aikit-adapters/src/actuation_model_routes.rs:434-555 | adding entries, wherever in the key order they land, only removes from the unmatched list |
| ModelRoutes.EvidenceDecides | crates/aikit-adapters/src/actuation_model_routes.rs:434-537 | one route set per Model in order; available iff a declared route is offered or reached, usable iff one can be taken |
| ModelRoutes.RoutesAreEvidenced | crates/aikit-adapters/src/actuation_model_routes.rs:436-534 | each observed route reports an offer that is there, or a reach where nothing is offered |
| ModelRoutes.OffersHaveRoutes | crates/aikit-adapters/src/actuation_model_routes.rs:515-533 | each matching offer has its own route, with its names and its detection |
| RouteContents.JoinTells | crates/aikit-adapters/src/actuation_model_routes.rs:422-573 | the whole join, field by field and in order: one route for each offer a declaration matches, else one through the first harness reaching its provider, else the declaration; each unwanted offer left over as observed |
| ModelRoutes.EvidenceOnlyHelpsAvailability | crates/aikit-adapters/src/actuation_model_routes.rs:434-537 | more offers or reach never make a Model unavailable |
| ModelRoutes.BindingsOnlyHelpUse | crates/aikit-adapters/src/actuation_model_routes.rs:174-191 | more credential bindings never make a Model unusable |
| ModelRoutes.UseAfterMoreOffers | crates/aikit-adapters/src/actuation_model_routes.rs:436-534 | after more offers a Model is usable iff some declared route that is offered only now has its own credential met, or some other one could be taken before |
| ModelRoutes.UseAfterMoreReach | crates/aikit-adapters/src/actuation_model_routes.rs:448-490 | after more reach it is usable iff some unoffered route whose first reach changed has that one's credential met, or some other one could be taken before |
| ModelRoutes.AnOfferCanMakeAModelUnusable | crates/aikit-adapters/src/actuation_model_routes.rs:448-490 | an offer can, by displacing a reach that needed no credential |
| ModelRoutes.AReachCanMakeAModelUnusable | crates/aikit-adapters/src/actuation_model_routes.rs:452-464 | so can a reach with a key listed before one without |
| ModelRoutes.ModelAvailability | crates/aikit-adapters/src/actuation_model_routes.rs:624-638 | available iff some route was observed; the `unreachable!` arm is never taken |
| StoreNames.UniqueDisplayName | crates/aikit-adapters/src/bkmr.rs:744-769 | the first candidate not in use, found within \|used\| + 1 of them |
| StoreNames.DiscoverStores | crates/aikit-adapters/src/bkmr.rs:676-738 | names and files pairwise distinct; listed are the active store and the first eligible database of each other file, in order, each named with the first candidate of its own stem and parent not taken before it |
| StoreNames.MintedReadsBack | crates/aikit-adapters/src/bkmr.rs:974-994 | a minted reference reads back to its store and id iff the name has no colon and the id is digits |
| Entities.DeclareParticipants | crates/aikit-adapters/src/central_entities.rs:67-119 | the nested loops compute the specified participants |
| Entities.ParticipationIsRecorded | crates/aikit-adapters/src/central_entities.rs:82-117 | a participant records each mention once in order after what its profile gave, exists iff profiled or mentioned, and references stay distinct |
| EntityContents.EvidenceIsRecorded | crates/aikit-adapters/src/central_entities.rs:82-117 | an agent's node gets the source and revision of exactly the records that name it, once each |
| Entities.Materialise | crates/aikit-adapters/src/central_entities.rs:48-188 | the passes over profiles, sets, edges and spaces compute the specified graph |
| Entities.GraphIsClosed | crates/aikit-adapters/src/central_entities.rs:122-141 | an edge is emitted iff declared and its target exists; both its ends exist |
| Entities.AgentEdgesAreNeverOmitted | crates/aikit-adapters/src/central_entities.rs:586-605 | an edge to a valid agent is always emitted |
| Entities.OmittedIffNoSuchSet | crates/aikit-adapters/src/central_entities.rs:606-626 | an edge is omitted iff it names a set no record declares |
| EntityContents.ReadingTells | crates/aikit-adapters/src/central_entities.rs:67-141 | of the members that point at something, in order, those that reach the graph have their edges and the others are disclosed, after the participants that are only declared |
| Entities.SpacesAreOwn | crates/aikit-adapters/src/central_entities.rs:147-185 | with distinct sets each local space has its own reference and lists exactly its set's kept members in order |
| EntityContents.SpaceListsItsMembers | crates/aikit-adapters/src/central_entities.rs:147-185 | a named set's local space lists, in the record's order, exactly what its members point at in the graph |
| EntityContents.SetNodesTell | crates/aikit-adapters/src/central_entities.rs:561-582 | each record has its node, named for it, with its source and revision |
| Entities.RefsAreInjective | crates/aikit-adapters/src/central_entities.rs:219-221 | references tell agents, sets and spaces apart, colons and all |
| Entities.Wiki.Adopt | crates/aikit-adapters/src/central_entities.rs:198-205 | colliding objects are dropped, the rest keep their order, the entities follow |
| Entities.AdoptingAgain | crates/aikit-adapters/src/central_entities.rs:190-205 | adopting twice is adopting once; a later rebuild that covers an earlier one replaces it |
| EntityContents.AdoptionTells | crates/aikit-adapters/src/central_entities.rs:190-205 | exactly the discovered objects whose reference no entity has, in order, and then the entities |
| Payload.BoundedProviderPayload | crates/aikit-adapters/src/agent_connection.rs:1354-1368 | unchanged when it fits; else the longest run of whole characters that fits, at most three bytes short, with the true size |
| Payload.BoundariesAreOffsets | crates/aikit-adapters/src/agent_connection.rs:1364-1366 | a byte position is a boundary iff a character starts there or the text ends (RFC 3629, section 3) |

## Left out

- SessionSystem.Causal: the provider is taken to answer only requests it was sent, with or without a method member; nothing else is assumed of it, so unknown ids, errors, unreadable messages, marked responses and repeated native ids are all in the model.
- SessionHost.StillOpen: turns carry a serial number that only statements read; the code tells turns apart by native id.
- Connection.Ingest: `session/update` payloads are one text, a permission request is one signal, and a response whose id is not an unsigned integer counts as unreadable, whatever its method member; stop-reason and usage texts are not looked into.
- Ids, counters and sequences are unbounded naturals: the wrap-around of 64-bit counters is not modelled, and native ids are ordered values with the blank id as absent.
- A lane is an index into a list of lanes rather than a shared pointer; mutexes appear as the regions they guard, and poisoning is not modelled.
- The model, mode and reasoning setters and the interactive wrapper: each is one more control request from the same counter.
- Process start and end, deadlines, stdin and stdout, the disk-backed event queue and the journal: delivery appends to a lane or is refused. The reader's refused delivery stops the bridge; a refusal of a stop's own record is ignored, as in the code.
- The commands an interrupt sends are an input; writing them to the wire is not modelled.
- Topology.Containment: a provenance list is one ordered value; references are naturals.
- Csv.Print: quotes a field holding a carriage return, as current CPython writers do; older ones quoted it only when the line end contains one.
- MatrixMerge.Reconciled: the strict Python reader, conflict-marker scans, git and the regeneration of renderings are not modelled; a main table without an `id` column is refused for a missing id where the script stops on a missing key.
- BatchRead.Error: errors are compared by their code, not by their attached details.
- BatchRead.ResolveBatch: `source_paths_batch` shares it and is not modelled apart.
- `compile_world_matrices` and the deduplication it does: single-pass lookups over parsed rows.
- SkillSets.CheckSkillSets: the literal lists of expected skills and the checks of named sets are an input or left out.
- ModelRoutes.Joined: notes and reason texts, the record's sources and annotations, and detection intake.
- StoreNames.DiscoverStores: what paths resolve to is an input; searching and showing through the `bkmr` command is not modelled, nor is the grammar of references.
- Entities.Materialised: reading carriers, the nara manifest's sources, profile details and titles; which agent references are valid is an input.
- Payload.BoundedProviderPayload: JSON printing; the text is what it printed.
- Detection and capability intake, profile and receipt validation, authored-wiki compilation, the acceptance and rehearsal scripts: they would add only easy members.
