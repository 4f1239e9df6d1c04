# HumaWare runtime: a verified model

This project models the command-approval runtime of a humanoid robot middleware, its scripted waypoint
provider and its bag evaluator, and proves what they are meant to guarantee.

**The runtime.** Mode manager, safety manager, command arbiter, locomotion adapter and hardware gate are
separate nodes. Each acts only on delayed copies of what the others published, and together they form a loop:
the safety state gates the arbiter, the arbiter's approved commands feed a watchdog of the safety manager.

- One module per node: its state, one function per callback, what every callback keeps, and a class whose
  methods update the fields as the node does. Each method is proved to compute its callback's function.
- `Runtime` composes these functions into one step function over a global state with a FIFO channel per topic
  and subscriber. Service calls, parameter changes, heartbeats and candidate commands come from outside at any
  moment; so do deliveries, losses, timer callbacks and the passing of time.
- `Deliveries` (what is sent, in flight and heard on each link), `Views` (what the nodes' fields make of it) and
  `Provenance` hold for every run, whatever is delayed or lost. `BoundedStop`, `SettledStop`, `TakeoverCutOff`,
  `DataAge`, `GateChannels`, `WatchdogBound` and the watchdog part of `FeedbackLoop` are about timed ("punctual")
  runs: nothing is lost, every delivery takes at most a bound and every timer fires at least once a period.
  `Runtime.TimeCanPass` shows that such runs never get stuck. `StartUp` and `Silence` build the timed runs behind
  the converses in `WatchdogBound` and `StallTrap`.
- `KeyboardTeleop`, `Nav2Bridge` and `ScriptedProvider` produce candidates. The runtime accepts candidates at any
  moment, so its theorems hold for these sources and any others. `KeyboardThreads` takes the two threads of the
  keyboard node statement by statement.

**The waypoint plan** (`WaypointPlan`). The loop that consumes segments is proved against a recursive walk, and the
walk against its closed form: prefix-sum positions modulo the plan length.

**The bag evaluator** (`BagTopics`, `BagEvaluator`, `BagMeaning`, with `StringOrder` and `Sequences`). The single pass over
interleaved topics is proved against a definition that folds each topic alone, and that against what the numbers
mean.

Time is in integer nanoseconds, velocities and plan durations are reals. `dafny verify dfyconfig.toml` checks
everything.

## Findings

- The keyboard node's key thread and timer share fields without a lock. Interleaved statement by statement, wherever
  some key can move the robot at all, a stop can be lost in two ways. The timer sends a message it built earlier
  between a stop key's own stop and the setting of the flag (`KeyboardThreads.StopCanBeLostIff`). Or a key is pressed
  again while the timer is about to publish the stop of a timed-out key, so that it publishes motion and sets the flag
  (`KeyboardThreads.TimeoutStopCanBeLostIff`); the next timeout is then silent. Either way the timer does not make up
  for it (`KeyboardThreads.LostStopStaysLost`). A lock around both callbacks removes both: every schedule is then
  equivalent to one of atomic callbacks (`KeyboardThreads.LockMakesAtomic`, `KeyboardThreads.LockKeepsStop`). The
  velocity limits hold in any case.
- With `publish_stop_on_block` off and the approved-command watchdog set to raise an MRM, one silence longer than the
  timeouts locks the runtime up: the MRM blocks the arbiter, and the silent arbiter keeps the MRM alive. Clear requests
  do not help while the mode stays active (`FeedbackLoop.StallIsAbsorbing`). These configurations are the only ones
  with such a trap; in all others every MRM can be ended at once (`StallTrap.StallTrapIff`, `StallTrap.EveryMrmEnds`).
- The locomotion adapter lists a constraint whenever its output is blocked, except in MODE_UNKNOWN
  (`Locomotion.BlockedTickExplains`), which the mode manager never publishes (`BoundedStop.BlockedRobotExplains`).
- Where two messages of a topic share a timestamp, the transition log tells the value of the last of them only
  (`BagMeaning.LogIsLossless`, `BagMeaning.SharedTimeHidesValue`).
- A topic under two levels of namespace counts as present although none of its fields is watched
  (`BagTopics.DeepNamespaceIsPresentUnwatched`).
- The docstring of `advance_progress` says that with an empty plan the progress is returned unchanged; the code returns
  a completed progress, which is the one given only if that was already completed at index 0
  (`WaypointPlan.EmptyPlanCompletes`).

## Model

| member | source | states |
|---|---|---|
| `BoundedStop.EstopBoundsMotion` | src/humaware_locomotion/humaware_mock_locomotion_adapter/humaware_mock_locomotion_adapter/mock_locomotion_adapter_node.py:53-131 | In every timed run, an E-stop engaged and held since T has the robot at zero velocity and STOPPING, STANDING or INACTIVE once one safety period, one delivery bound and one adapter period have passed, for as long as it is held and whatever nonzero commands are still in flight |
| `SettledStop.EstopStandsRobot` | src/humaware_locomotion/humaware_mock_locomotion_adapter/humaware_mock_locomotion_adapter/mock_locomotion_adapter_node.py:133-170 | Under a held E-stop and a kept mode that does not park the adapter, the robot is STANDING one settle time and one adapter period after that bound, in every timed run |
| `BoundedStop.EstopArrives` | src/humaware_safety/humaware_safety_manager/humaware_safety_manager/safety_manager_node.py:228-322 | After T + safety period + delivery bound, arbiter, adapter and gate all view ESTOP and keep viewing it while it is held |
| `BoundedStop.EstopStopsOutput` | src/humaware_runtime/humaware_command_arbiter/humaware_command_arbiter/command_arbiter_node.py:210-256 | From then on the arbiter publishes no nonzero approved command, output_enabled is false and the hardware gate applies nothing |
| `BoundedStop.LatchedIff` | src/humaware_safety/humaware_safety_manager/humaware_safety_manager/safety_manager_node.py:193-226 | After any run the service MRM is latched if and only if some trigger has had no accepted clear since (a clear under E-stop is refused) |
| `BoundedStop.LatchPersists` | src/humaware_safety/humaware_safety_manager/humaware_safety_manager/safety_manager_node.py:228-304 | Until such a clear every safety publication is MRM, or ESTOP while the E-stop is on; so a trigger made under E-stop survives its release |
| `BoundedStop.MrmStopsOutput` | src/humaware_runtime/humaware_command_arbiter/humaware_command_arbiter/command_arbiter_node.py:210-256 | One delivery bound after a trigger, and until cleared, the arbiter approves no motion and the gate applies nothing |
| `BoundedStop.MrmBoundsMotion` | src/humaware_locomotion/humaware_mock_locomotion_adapter/humaware_mock_locomotion_adapter/mock_locomotion_adapter_node.py:87-131 | One delivery bound and one adapter period after a trigger, and until cleared, the robot is at rest |
| `BoundedStop.ModeArrives` | src/humaware_runtime/humaware_mode_manager/humaware_mode_manager/mode_manager_node.py:182-200 | One delivery bound after its publication, a mode that is kept is the view of arbiter, adapter and gate |
| `BoundedStop.ModeBoundsMotion` | src/humaware_locomotion/humaware_mock_locomotion_adapter/humaware_mock_locomotion_adapter/mock_locomotion_adapter_node.py:87-106 | One delivery bound and one adapter period after INACTIVE, MAINTENANCE, FAULT or SHUTDOWN was published, and for as long as it is kept, the robot is at rest |
| `BoundedStop.ModeStopsOutput` | src/humaware_runtime/humaware_command_arbiter/humaware_command_arbiter/command_arbiter_node.py:210-256 | One delivery bound after such a publication the arbiter approves no motion and the gate applies nothing |
| `BoundedStop.RobotIsConsistent` | src/humaware_locomotion/humaware_mock_locomotion_adapter/humaware_mock_locomotion_adapter/mock_locomotion_adapter_node.py:53-180 | In every run of the composed runtime WALKING and TURNING hold exactly as the stored velocity classifies against epsilon, every other state has zero velocity, and STOPPING has a start time |
| `BoundedStop.BlockedRobotExplains` | src/humaware_locomotion/humaware_mock_locomotion_adapter/humaware_mock_locomotion_adapter/mock_locomotion_adapter_node.py:82-131 | In every run of the composed runtime, after every adapter timer callback a blocked output comes with a non-empty constraint list |
| `TakeoverCutOff.TakeoverAlwaysAccepted` | src/humaware_runtime/humaware_mode_manager/humaware_mode_manager/mode_manager_node.py:140-167 | A takeover from any active mode is accepted whatever the safety state, and published at once |
| `TakeoverCutOff.TakeoverCutsAutonomyOff` | src/humaware_runtime/humaware_command_arbiter/humaware_command_arbiter/command_arbiter_node.py:86-95 | From one delivery bound after a takeover until the mode is changed again, no autonomy or AI-policy candidate is approved in any timed run; what nonzero command is approved comes from teleoperation |
| `TakeoverCutOff.TakeoverReachesGate` | src/humaware_hardware/humaware_hardware_adapter_template/humaware_hardware_adapter_template/template_adapter_node.py:171-197 | From two delivery bounds and the gate's timeout after a takeover until the mode is changed again, every nonzero command the gate applies descends from a teleoperation candidate of bounded age |
| `TakeoverCutOff.TakeoverReachesRobot` | src/humaware_locomotion/humaware_mock_locomotion_adapter/humaware_mock_locomotion_adapter/mock_locomotion_adapter_node.py:53-131 | From two delivery bounds and the command timeout after a takeover until the mode is changed again, a robot moving after an adapter timer callback follows a teleoperation candidate of bounded age |
| `Provenance.ApprovedProvenance` | src/humaware_runtime/humaware_command_arbiter/humaware_command_arbiter/command_arbiter_node.py:210-256 | In every run, under any delay and loss, a nonzero approved command is the newest candidate of one source, received no longer ago than the timeout, each axis held within its own limit; the mode that source drives in is the arbiter's view, was really active in the mode manager, and if autonomous had been entered while safety was viewed OK or WARN |
| `Provenance.TableHoldsNewest` | src/humaware_runtime/humaware_command_arbiter/humaware_command_arbiter/command_arbiter_node.py:201-208 | After any run the candidate table holds exactly the newest candidate of each source, with that source's mode and its time of receipt |
| `Deliveries.ChannelIsFaithful` | src/humaware_runtime/humaware_command_arbiter/humaware_command_arbiter/command_arbiter_node.py:132-192 | On each of the thirteen links of every run: what was heard and what is in flight is a subsequence of what was sent, and all of it where nothing is lost; what each event sends is stated on its own |
| `Deliveries.NewestWasSent` | src/humaware_runtime/humaware_command_arbiter/humaware_command_arbiter/command_arbiter_node.py:132-192 | The newest message a node heard on a link was published on it by an event of the run |
| `Deliveries.NewestIsTimely` | src/humaware_runtime/humaware_command_arbiter/humaware_command_arbiter/command_arbiter_node.py:132-192 | In a timed run it had been published at most one delivery bound before it was heard |
| `Views.ModeViewsAreNewest` | src/humaware_runtime/humaware_command_arbiter/humaware_command_arbiter/command_arbiter_node.py:194-195 | Safety manager, arbiter, adapter and gate view the newest mode each of them heard |
| `Views.DeciderViewsAreNewest` | src/humaware_runtime/humaware_mode_manager/humaware_mode_manager/mode_manager_node.py:169-171 | Mode manager and arbiter view the newest safety state each of them heard, and know whether there was one |
| `Views.ActuatorViewsAreNewest` | src/humaware_locomotion/humaware_mock_locomotion_adapter/humaware_mock_locomotion_adapter/mock_locomotion_adapter_node.py:50-51 | Adapter and gate view the newest safety state each of them heard |
| `Views.MrmViewIsNewest` | src/humaware_hardware/humaware_hardware_adapter_template/humaware_hardware_adapter_template/template_adapter_node.py:157-158 | The gate views the newest MRM state it heard |
| `Views.GateCommandIsNewest` | src/humaware_hardware/humaware_hardware_adapter_template/humaware_hardware_adapter_template/template_adapter_node.py:163-165 | The gate holds the newest command it heard, with the time it heard it |
| `Views.GateFlagIsNewest` | src/humaware_hardware/humaware_hardware_adapter_template/humaware_hardware_adapter_template/template_adapter_node.py:167-169 | The gate holds the newest output flag it heard, with the time it heard it |
| `Views.BeatsAreNewest` | src/humaware_safety/humaware_safety_manager/humaware_safety_manager/safety_manager_node.py:181-185 | The heartbeat times are those of the newest teleop and of the newest hardware heartbeat, and none before one |
| `Views.WatchdogTimeIsNewest` | src/humaware_safety/humaware_safety_manager/humaware_safety_manager/safety_manager_node.py:187-188 | The watchdog's command time is that of the newest command the safety manager heard |
| `Views.AdapterTimeIsNewest` | src/humaware_locomotion/humaware_mock_locomotion_adapter/humaware_mock_locomotion_adapter/mock_locomotion_adapter_node.py:53-55 | The adapter's command time is that of the newest command it heard |
| `Views.ParametersAreNewest` | src/humaware_safety/humaware_safety_manager/humaware_safety_manager/safety_manager_node.py:228-240 | E-stop and MRM parameters are those set last |
| `Views.ReasonIsNewest` | src/humaware_safety/humaware_safety_manager/humaware_safety_manager/safety_manager_node.py:193-226 | The service's MRM reason is that of the newest trigger that stands, with a stand-in for an empty one |
| `Views.CurrentLevelIsLast` | src/humaware_safety/humaware_safety_manager/humaware_safety_manager/safety_manager_node.py:193-226 | The level a service answers with is the one published last |
| `Provenance.ModeCopiesAreReal` | src/humaware_runtime/humaware_command_arbiter/humaware_command_arbiter/command_arbiter_node.py:194-196 | Every copy of the mode, in flight or stored by any subscriber, is the start-up value or a mode the mode manager really was in |
| `Provenance.AutonomyWasEnteredClear` | src/humaware_runtime/humaware_mode_manager/humaware_mode_manager/mode_manager_node.py:228-258 | From a non-active start, an autonomous mode in force had been entered by an accepted request with safety seen and viewed OK or WARN |
| `Provenance.SafetyNotReadyIsUnreachable` | src/humaware_runtime/humaware_command_arbiter/humaware_command_arbiter/command_arbiter_node.py:78-82 | In the composed runtime the safety_state_not_ready branch is never taken |
| `GateChannels.GateAppliesFreshData` | src/humaware_hardware/humaware_hardware_adapter_template/humaware_hardware_adapter_template/template_adapter_node.py:59-102 | In a timed run a nonzero command applied by the gate descends from a candidate the arbiter received at most arbiter timeout + delivery bound + approved timeout ago, lies within the limits, and rests on an output the arbiter enabled at most arbitration timeout + delivery bound ago and on views of clear safety, no MRM and an active mode |
| `GateChannels.GateRestsOnEnabled` | src/humaware_hardware/humaware_hardware_adapter_template/humaware_hardware_adapter_template/template_adapter_node.py:88-97 | A gate that applies any command rests on an enabled output of that age |
| `GateChannels.GateRestsOnMessages` | src/humaware_hardware/humaware_hardware_adapter_template/humaware_hardware_adapter_template/template_adapter_node.py:154-169 | In every run a gate that applies a command was told so: newest safety OK or WARN, newest mode active, newest MRM state, if any, NONE, newest output flag set, newest command that very one |
| `GateChannels.FlagsArePublished` | src/humaware_hardware/humaware_hardware_adapter_template/humaware_hardware_adapter_template/template_adapter_node.py:167-169 | Under any delay and loss, an output flag in flight to the gate or stored in it is one the arbiter published |
| `GateChannels.DisabledShutsGate` | src/humaware_hardware/humaware_hardware_adapter_template/humaware_hardware_adapter_template/template_adapter_node.py:96-97 | An arbiter that finds its output disabled at every firing since T has the gate shut from T + arbiter period + delivery bound on, whatever commands are in flight |
| `GateChannels.TriggerReachesGate` | src/humaware_hardware/humaware_hardware_adapter_template/humaware_hardware_adapter_template/template_adapter_node.py:157-158 | One delivery bound after a trigger, and until it is cleared, the gate views the MRM state STOP or FAULT |
| `GateChannels.EstopReachesGate` | src/humaware_hardware/humaware_hardware_adapter_template/humaware_hardware_adapter_template/template_adapter_node.py:157-158 | One safety period and one delivery bound into a held E-stop the gate views the MRM state FAULT |
| `DataAge.LocoMovesOnFreshData` | src/humaware_locomotion/humaware_mock_locomotion_adapter/humaware_mock_locomotion_adapter/mock_locomotion_adapter_node.py:87-131 | After every adapter timer callback a moving robot follows a command descending from a candidate at most arbiter timeout + delivery bound + command timeout old |
| `DataAge.InFlightWasPublished` | src/humaware_runtime/humaware_command_arbiter/humaware_command_arbiter/command_arbiter_node.py:210-256 | Under any delay and loss, every approved command in flight to gate or adapter was published by the arbiter at its time stamp |
| `DataAge.GateStoresFresh` | src/humaware_hardware/humaware_hardware_adapter_template/humaware_hardware_adapter_template/template_adapter_node.py:163-165 | The gate's stored command was published at most one delivery bound before it was stored |
| `FeedbackLoop.WatchdogNeverFires` | src/humaware_safety/humaware_safety_manager/humaware_safety_manager/safety_manager_node.py:94-104 | With stops published on block, and arbiter period plus delivery bound within the timeout, the approved-command watchdog has no finding in any timed run |
| `WatchdogBound.WatchdogBoundIsExact` | src/humaware_safety/humaware_safety_manager/humaware_safety_manager/safety_manager_node.py:94-104 | For every system: the approved-command watchdog is silent in all timed runs if and only if it has nothing to watch (off, start-up in SHUTDOWN, or an arbiter that can publish nothing), or stops are published on block and its timeout covers one arbiter period and one delivery bound; where a timer has a zero period no time passes, and the condition is a timeout that is not negative |
| `WatchdogBound.WatchdogCanFire` | src/humaware_safety/humaware_safety_manager/humaware_safety_manager/safety_manager_node.py:94-104 | In every other system, whatever mode and demands it starts with, a timed run trips the watchdog |
| `WatchdogBound.LongestWait` | src/humaware_runtime/humaware_command_arbiter/humaware_command_arbiter/command_arbiter_node.py:210-256 | From any start-up but SHUTDOWN, a timed run leaves a full arbiter period and a full delivery bound between two commands heard by the watchdog |
| `FeedbackLoop.StallIsAbsorbing` | src/humaware_safety/humaware_safety_manager/humaware_safety_manager/safety_manager_node.py:94-104 | With the stop publication off and the MRM policy on, a propagated stall is absorbing under every event (clears, fresh candidates, loss, delay) while the safety manager views an active mode: the arbiter stays silent and the MRM active |
| `FeedbackLoop.StallOutputs` | src/humaware_runtime/humaware_command_arbiter/humaware_command_arbiter/command_arbiter_node.py:98-102 | In a stall the arbiter publishes nothing and every publication blocks, also right after a clear |
| `StallTrap.StallTrapIff` | src/humaware_safety/humaware_safety_manager/humaware_safety_manager/safety_manager_node.py:94-104 | For every system with safety timeouts that are not negative: some run, even a timed one where time can pass, leads into an MRM that no continuation ends while the mode stays active, if and only if stops are not published on block, the watchdog is on with the MRM policy, candidates can be approved at all, and the start-up is not SHUTDOWN |
| `StallTrap.EveryMrmEnds` | src/humaware_safety/humaware_safety_manager/humaware_safety_manager/safety_manager_node.py:193-226 | In every other configuration, from every state of every run, the MRM can be ended at once while the safety manager keeps viewing the same mode as active: the demands taken back, heartbeats, and one published stop |
| `StallTrap.StallIsReachable` | src/humaware_safety/humaware_safety_manager/humaware_safety_manager/safety_manager_node.py:187-188 | A stall-prone system has a timed run from start-up into the stall in which the operator does nothing but fall silent |
| `Silence.SilenceTrips` | src/humaware_runtime/humaware_command_arbiter/humaware_command_arbiter/command_arbiter_node.py:86-95 | Without stops on block, silence lets the last candidate expire and then trips the watchdog, in a timed run |
| `StartUp.Starting` | src/humaware_runtime/humaware_mode_manager/humaware_mode_manager/mode_manager_node.py:86-138 | Whatever mode but SHUTDOWN and whatever stop demands a system starts with, a run at one moment reaches teleoperation with a first command approved and heard |
| `Runtime.NeverLate` | src/humaware_safety/humaware_safety_manager/humaware_safety_manager/safety_manager_node.py:228-322 | In a timed run no message is ever older than the delivery bound and no timer later than its period |
| `Runtime.TimeCanPass` | src/humaware_runtime/humaware_command_arbiter/humaware_command_arbiter/command_arbiter_node.py:210-256 | With positive timer periods, every timed run has a timed continuation in which time has passed: the timed theorems are about real runs |
| `Runtime.RoundReaches` | src/humaware_runtime/humaware_command_arbiter/humaware_command_arbiter/command_arbiter_node.py:210-256 | Firing the timers and delivering what is in flight keeps every predicate that each single event keeps, and empties the channels |
| `Runtime.ClockIsMonotone` | src/humaware_runtime/humaware_command_arbiter/humaware_command_arbiter/command_arbiter_node.py:92-93 | The clock of a run never goes back, so ages are never negative |
| `CommandArbiter.PriorityIsLookup` | src/humaware_runtime/humaware_command_arbiter/humaware_command_arbiter/command_arbiter_node.py:86-95 | Because each stored candidate's mode is fixed by its source, the priority loop equals a direct lookup by mode, for any order that lists all sources |
| `CommandArbiter.OutputEnabledIff` | src/humaware_runtime/humaware_command_arbiter/humaware_command_arbiter/command_arbiter_node.py:68-95 | Output is enabled if and only if a safety state was seen, it is OK or WARN, and the source of the mode in force has a candidate within the timeout |
| `CommandArbiter.EnabledOutput` | src/humaware_runtime/humaware_command_arbiter/humaware_command_arbiter/command_arbiter_node.py:224-256 | An enabled output is the candidate of the one source that drives in the mode in force, each axis as it is inside its limit and at the nearer end outside; source, mode, safety, reason and time of receipt are published with it |
| `CommandArbiter.DisabledOutput` | src/humaware_runtime/humaware_command_arbiter/humaware_command_arbiter/command_arbiter_node.py:224-247 | A disabled output is a stop if a safety state was seen and stops are published on block, and silence otherwise, and the published state says which |
| `CommandArbiter.ReasonNamesObstacle` | src/humaware_runtime/humaware_command_arbiter/humaware_command_arbiter/command_arbiter_node.py:68-95 | The published reason names the first obstacle: safety unseen, safety, mode, and only then the candidates |
| `CommandArbiter.ClampVelocityIsProjection` | src/humaware_runtime/humaware_command_arbiter/humaware_command_arbiter/command_arbiter_node.py:105-126 | Clamping lands within the limits with the unused axes zero, and changes nothing exactly when the command already was there |
| `CommandArbiter.ClampVelocityLimits` | src/humaware_runtime/humaware_command_arbiter/humaware_command_arbiter/command_arbiter_node.py:105-126 | For every command and all limits, clamping gives each axis its own value inside its limit, the limit above it and the negative limit below it, whatever the other axes are, and nothing else does |
| `Messages.LimitedIsNearest` | src/humaware_runtime/humaware_command_arbiter/humaware_command_arbiter/command_arbiter_node.py:125-126 | That is the one nearest point of the axis's interval |
| `CommandArbiter.CommandArbiterNode.SelectCandidate` | src/humaware_runtime/humaware_command_arbiter/humaware_command_arbiter/command_arbiter_node.py:68-95 | The loop over the sources, with its early exits, returns the specified candidate and reason |
| `CommandArbiter.CommandArbiterNode.StoreCandidate` | src/humaware_runtime/humaware_command_arbiter/humaware_command_arbiter/command_arbiter_node.py:201-208 | Exactly the entry of the source is replaced by message, mode and time of receipt |
| `CommandArbiter.CommandArbiterNode.Tick` | src/humaware_runtime/humaware_command_arbiter/humaware_command_arbiter/command_arbiter_node.py:210-256 | Publishes the specified command and arbitration state and changes no field; an enabled output is a stored candidate, each axis held within its limit |
| `SafetyManager.PublishedLevel` | src/humaware_safety/humaware_safety_manager/humaware_safety_manager/safety_manager_node.py:228-304 | From the stored times, latch and parameters: ESTOP over MRM over WARN over OK, findings stated without lists or strings |
| `Views.LevelTellsRun` | src/humaware_safety/humaware_safety_manager/humaware_safety_manager/safety_manager_node.py:228-322 | Over every run: the published safety and MRM states told from the events alone -- the newest parameter settings, triggers without an accepted clear, the newest mode heard, and the times of the newest teleop heartbeat, hardware heartbeat and command heard |
| `SafetyManager.ListsNameFindings` | src/humaware_safety/humaware_safety_manager/humaware_safety_manager/safety_manager_node.py:38-106 | Which findings the lists of warnings and MRM reasons name, and in which order; which faults and warnings are published at each level |
| `SafetyManager.ReasonPriority` | src/humaware_safety/humaware_safety_manager/humaware_safety_manager/safety_manager_node.py:109-127 | A parameter MRM's reason comes before the service's, that before the first watchdog's, and the defaults last |
| `SafetyManager.PublicationsCohere` | src/humaware_safety/humaware_safety_manager/humaware_safety_manager/safety_manager_node.py:109-127 | The MRM reason is non-empty if and only if an MRM is active; MRM NONE, STOP and FAULT correspond exactly to safety OK or WARN, MRM, and ESTOP; faults are listed exactly under ESTOP |
| `SafetyManager.SafetyManagerNode.EvaluateWatchdogs` | src/humaware_safety/humaware_safety_manager/humaware_safety_manager/safety_manager_node.py:51-106 | Appending findings one by one gives the specified warnings and MRM reasons, in order |
| `SafetyManager.SafetyManagerNode.PublishState` | src/humaware_safety/humaware_safety_manager/humaware_safety_manager/safety_manager_node.py:228-322 | Both published messages and the stored level are the specified ones; no other field changes |
| `SafetyManager.SafetyManagerNode.HandleTriggerMrm` | src/humaware_safety/humaware_safety_manager/humaware_safety_manager/safety_manager_node.py:193-205 | Latches with the given or default reason, publishes, and answers with the published level |
| `SafetyManager.SafetyManagerNode.HandleClearMrm` | src/humaware_safety/humaware_safety_manager/humaware_safety_manager/safety_manager_node.py:207-226 | Refused without any change or publication under E-stop; otherwise unlatches and publishes |
| `ModeManager.RequestLegality` | src/humaware_runtime/humaware_mode_manager/humaware_mode_manager/mode_manager_node.py:228-258 | Which plain requests are accepted: the mode in force always, and otherwise never out of SHUTDOWN, active modes only with safety seen, autonomous ones only with safety OK or WARN and not from MAINTENANCE, AI_POLICY only from TELEOP or AUTONOMY |
| `ModeManager.ModeCodes` | src/humaware_msgs/msg/ModeState.msg:4-10 | The code of each mode a request can name, and that no other code names one |
| `ModeManager.TakeoverLegality` | src/humaware_runtime/humaware_mode_manager/humaware_mode_manager/mode_manager_node.py:241-244 | A takeover is accepted from exactly the active modes, without regard to safety |
| `ModeManager.AutonomyEntry` | src/humaware_runtime/humaware_mode_manager/humaware_mode_manager/mode_manager_node.py:228-258 | An autonomous mode is entered only by an accepted request with safety seen and clear |
| `ModeManager.ActiveNeedsSafety` | src/humaware_runtime/humaware_mode_manager/humaware_mode_manager/mode_manager_node.py:140-171 | From a non-active start, an active mode implies that safety was seen, although takeover skips that check |
| `ModeManager.ShutdownAbsorbs` | src/humaware_runtime/humaware_mode_manager/humaware_mode_manager/mode_manager_node.py:236-238 | No run leaves SHUTDOWN |
| `ModeManager.LogReproducesMode` | src/humaware_runtime/humaware_mode_manager/humaware_mode_manager/mode_manager_node.py:202-225 | The published transition records chain from the initial mode, end in the mode in force, and folding the accepted ones reproduces it |
| `ModeManager.RecordTellsStep` | src/humaware_runtime/humaware_mode_manager/humaware_mode_manager/mode_manager_node.py:202-225 | A request or takeover publishes one record, with its own code and kind, the mode before and the mode after; no other event publishes any |
| `ModeManager.FieldsTellRequests` | src/humaware_runtime/humaware_mode_manager/humaware_mode_manager/mode_manager_node.py:86-187 | requested_mode is the newest mode asked for, or taken over to; active_since is the time of the newest accepted request |
| `ModeManager.ModeManagerNode.HandleSetMode` | src/humaware_runtime/humaware_mode_manager/humaware_mode_manager/mode_manager_node.py:86-138 | New state, record and publication of a request, invalid codes and rejections included |
| `ModeManager.ModeManagerNode.HandleTakeover` | src/humaware_runtime/humaware_mode_manager/humaware_mode_manager/mode_manager_node.py:140-167 | New state, record and publication of a takeover, published also when rejected |
| `Locomotion.StepKeepsConsistent` | src/humaware_locomotion/humaware_mock_locomotion_adapter/humaware_mock_locomotion_adapter/mock_locomotion_adapter_node.py:53-180 | Every callback keeps the classification of state by stored velocity, and a start time in STOPPING |
| `Locomotion.BlockedStaysAtRest` | src/humaware_locomotion/humaware_mock_locomotion_adapter/humaware_mock_locomotion_adapter/mock_locomotion_adapter_node.py:53-80 | While output is blocked, no callback sets a resting robot in motion |
| `Locomotion.TickHalts` | src/humaware_locomotion/humaware_mock_locomotion_adapter/humaware_mock_locomotion_adapter/mock_locomotion_adapter_node.py:87-118 | One timer callback in INACTIVE, MAINTENANCE, FAULT or SHUTDOWN, or under safety that is not OK or WARN, brings the robot to rest; in the first two it is INACTIVE with no stop under way |
| `Locomotion.TickHaltsExactly` | src/humaware_locomotion/humaware_mock_locomotion_adapter/humaware_mock_locomotion_adapter/mock_locomotion_adapter_node.py:87-131 | A timer callback brings a moving robot to rest exactly under such a demand or when its last command has timed out; otherwise it changes nothing |
| `Locomotion.CommandIsObeyed` | src/humaware_locomotion/humaware_mock_locomotion_adapter/humaware_mock_locomotion_adapter/mock_locomotion_adapter_node.py:53-80 | An approved command that is not small, in an active mode under OK or WARN, moves the robot at its own velocities; every other one brings it to rest; its time is noted |
| `Locomotion.StopBeginsOnce` | src/humaware_locomotion/humaware_mock_locomotion_adapter/humaware_mock_locomotion_adapter/mock_locomotion_adapter_node.py:133-170 | A reason to stop begins a stop at that moment unless one is under way or settled, and the stop settles exactly in its time |
| `Locomotion.ConstraintNamesObstacle` | src/humaware_locomotion/humaware_mock_locomotion_adapter/humaware_mock_locomotion_adapter/mock_locomotion_adapter_node.py:87-131 | The constraint listed after a timer callback names the first obstacle: mode, safety, no command, late command |
| `Locomotion.BlockedTickExplains` | src/humaware_locomotion/humaware_mock_locomotion_adapter/humaware_mock_locomotion_adapter/mock_locomotion_adapter_node.py:87-131 | After a timer callback a blocked output is explained by a constraint, if and only if the callback was not one in MODE_UNKNOWN with safety clear, a fresh command and an empty list |
| `Locomotion.StopStartIsKept` | src/humaware_locomotion/humaware_mock_locomotion_adapter/humaware_mock_locomotion_adapter/mock_locomotion_adapter_node.py:133-153 | Repeated stop reasons never restart a stop that is under way or has settled |
| `Locomotion.SettlesOnTime` | src/humaware_locomotion/humaware_mock_locomotion_adapter/humaware_mock_locomotion_adapter/mock_locomotion_adapter_node.py:133-170 | Over any run without motion commands and parking modes, the first settle-checking callback at or after start + settle time yields STANDING, and for a robot that has been commanded no earlier one does |
| `SettledStop.StopBeganBefore` | src/humaware_locomotion/humaware_mock_locomotion_adapter/humaware_mock_locomotion_adapter/mock_locomotion_adapter_node.py:133-153 | In every run the start time of a stop is not in the future |
| `Locomotion.LocomotionNode.OnApprovedCommand` | src/humaware_locomotion/humaware_mock_locomotion_adapter/humaware_mock_locomotion_adapter/mock_locomotion_adapter_node.py:53-80 | The new state after an approved command, stop, blocked and moving cases |
| `Locomotion.LocomotionNode.StartStop` | src/humaware_locomotion/humaware_mock_locomotion_adapter/humaware_mock_locomotion_adapter/mock_locomotion_adapter_node.py:133-153 | The new state after a stop reason, start time kept or set |
| `Locomotion.LocomotionNode.SettleStopIfReady` | src/humaware_locomotion/humaware_mock_locomotion_adapter/humaware_mock_locomotion_adapter/mock_locomotion_adapter_node.py:155-170 | The new state after the settle check |
| `Locomotion.LocomotionNode.UpdateStateForRuntime` | src/humaware_locomotion/humaware_mock_locomotion_adapter/humaware_mock_locomotion_adapter/mock_locomotion_adapter_node.py:87-131 | The new state after the timer's classification of mode, safety and command age; at rest wherever mode or safety demands it |
| `HardwareGate.GateOpensIff` | src/humaware_hardware/humaware_hardware_adapter_template/humaware_hardware_adapter_template/template_adapter_node.py:59-102 | A command is applied if and only if safety is clear, no MRM is active, the mode is active, arbitration enables output and is fresh, and the command is fresh; what is applied is the stored command |
| `HardwareGate.ReasonNamesRule` | src/humaware_hardware/humaware_hardware_adapter_template/humaware_hardware_adapter_template/template_adapter_node.py:59-102 | The reason for stopping names the first rule that is not met, from safety down to the age of the command |
| `HardwareGate.HardwareAdapterNode.Tick` | src/humaware_hardware/humaware_hardware_adapter_template/humaware_hardware_adapter_template/template_adapter_node.py:171-197 | Applies the stored command or stops the hardware, as specified, and changes no field |
| `KeyboardTeleop.KeysStayWithinLimits` | src/humaware_teleop/humaware_keyboard_teleop/humaware_keyboard_teleop/keymap.py:18-55 | No key moves the target outside the velocity limits |
| `KeyboardTeleop.KeysStepOneAxis` | src/humaware_teleop/humaware_keyboard_teleop/humaware_keyboard_teleop/keymap.py:18-45 | Both stop keys still the target; w, s step the linear axis up and down and a, d the angular one, held within that axis's limit; the other axis is only held within its own |
| `KeyboardTeleop.OppositeKeysCancel` | src/humaware_teleop/humaware_keyboard_teleop/humaware_keyboard_teleop/keymap.py:18-45 | For every target, step and limit: opposite keys cancel if and only if the target is within the limits and no limit cuts the first key short, or a limit catches the second |
| `KeyboardTeleop.StopFlagIsTruthful` | src/humaware_teleop/humaware_keyboard_teleop/humaware_keyboard_teleop/keyboard_teleop_node.py:100-137 | Over all runs of atomic callbacks, the stop flag implies zero velocity and a last published command, if any, of zero; with limits that are not negative, target and last command stay within them |
| `KeyboardTeleop.TickOutstanding` | src/humaware_teleop/humaware_keyboard_teleop/humaware_keyboard_teleop/keyboard_teleop_node.py:117-137 | After every timer callback the outstanding command is the target; later than last key + timeout no nonzero command is outstanding |
| `KeyboardTeleop.KeyActs` | src/humaware_teleop/humaware_keyboard_teleop/humaware_keyboard_teleop/keyboard_teleop_node.py:87-115 | In any run a key acts at once: its step is taken and a target it stills is published; keys other than the six do nothing |
| `KeyboardTeleop.FieldsTellKeys` | src/humaware_teleop/humaware_keyboard_teleop/humaware_keyboard_teleop/keyboard_teleop_node.py:100-137 | The timeout counts from the newest key, and the stop flag is set exactly while the target is still |
| `KeyboardTeleop.StopIsPublishedOnce` | src/humaware_teleop/humaware_keyboard_teleop/humaware_keyboard_teleop/keyboard_teleop_node.py:117-137 | A timer callback publishes its target unless the target was still already, so a stop goes out once |
| `KeyboardThreads.LimitsSurviveInterleaving` | src/humaware_teleop/humaware_keyboard_teleop/humaware_keyboard_teleop/keyboard_teleop_node.py:87-145 | Under statement-level interleaving of key thread and timer, half-built messages included, no published command leaves the limits |
| `KeyboardThreads.LockMakesAtomic` | src/humaware_teleop/humaware_keyboard_teleop/humaware_keyboard_teleop/keyboard_teleop_node.py:100-145 | If a thread starts a callback only while the other is idle, as under a lock, every schedule at rest is where some run of atomic callbacks leads |
| `KeyboardThreads.LockKeepsStop` | src/humaware_teleop/humaware_keyboard_teleop/humaware_keyboard_teleop/keyboard_teleop_node.py:100-145 | Under that condition the stop protocol holds: at rest, a set stop flag implies zero velocity and nothing moving |
| `KeyboardThreads.StopCanBeLostIff` | src/humaware_teleop/humaware_keyboard_teleop/humaware_keyboard_teleop/keyboard_teleop_node.py:100-145 | Without a lock, some schedule loses the stop of a stop key -- both threads at rest, the flag set, a nonzero command last -- if and only if some key can move the robot at all, for every timeout |
| `KeyboardThreads.TimeoutStopCanBeLostIff` | src/humaware_teleop/humaware_keyboard_teleop/humaware_keyboard_teleop/keyboard_teleop_node.py:117-137 | Under the same condition, some schedule loses the stop of a timed-out key, with no stop key and no second key pressed |
| `KeyboardThreads.ImmobileStaysStill` | src/humaware_teleop/humaware_keyboard_teleop/humaware_keyboard_teleop/keyboard_teleop_node.py:100-145 | Where no key can move the robot, no schedule produces anything but zero velocities |
| `KeyboardThreads.LostStopStaysLost` | src/humaware_teleop/humaware_keyboard_teleop/humaware_keyboard_teleop/keyboard_teleop_node.py:117-131 | A stop lost in this way is never made up for by the timer alone |
| `KeyboardTeleop.KeyboardTeleopNode.HandleKey` | src/humaware_teleop/humaware_keyboard_teleop/humaware_keyboard_teleop/keyboard_teleop_node.py:100-115 | New state and publication of a motion key |
| `KeyboardTeleop.KeyboardTeleopNode.PublishTick` | src/humaware_teleop/humaware_keyboard_teleop/humaware_keyboard_teleop/keyboard_teleop_node.py:117-131 | New state and publication of a timer callback |
| `Nav2Bridge.ViewsAreNewest` | src/humaware_navigation/humaware_nav2_bridge/humaware_nav2_bridge/nav2_bridge_node.py:65-98 | After any run the views are the newest delivered states, the stored input and its time are the newest, the last output time is that of the newest input let through, and output is enabled exactly in the ACTIVE bridge state |
| `Nav2Bridge.ForwardsExactly` | src/humaware_navigation/humaware_nav2_bridge/humaware_nav2_bridge/nav2_bridge_node.py:92-153 | In any run a candidate is published if and only if the event is an input met with newest mode AUTONOMY, newest safety clear and locomotion ready; the candidate is that input |
| `Nav2Bridge.TimerNamesObstacle` | src/humaware_navigation/humaware_nav2_bridge/humaware_nav2_bridge/nav2_bridge_node.py:100-153 | In any run a timer callback reports ACTIVE exactly while the newest input is within its timeout and the newest views let it pass; otherwise state and reason name the first obstacle |
| `Nav2Bridge.Nav2BridgeNode.UpdateBridgeState` | src/humaware_navigation/humaware_nav2_bridge/humaware_nav2_bridge/nav2_bridge_node.py:105-153 | The chain of checks leaves the specified bridge state, reason and output flag |
| `Nav2Bridge.Nav2BridgeNode.HandleCommand` | src/humaware_navigation/humaware_nav2_bridge/humaware_nav2_bridge/nav2_bridge_node.py:92-98 | New state and publication of an input |
| `WaypointPlan.ParsedPlansAreValid` | src/humaware_policy/humaware_policy_provider_scripted/humaware_policy_provider_scripted/plan.py:44-87 | A parsed plan has, entry by entry, the linear, angular and duration fields of the input, all durations positive; a failure names the first entry that lacks a field or a positive duration |
| `WaypointPlan.AdvanceProgress` | src/humaware_policy/humaware_policy_provider_scripted/humaware_policy_provider_scripted/plan.py:90-137 | For every plan of positive durations and every progress, also one past the end or outside its segment, the loop terminates and computes the specified walk; a negative step is refused |
| `WaypointPlan.FuelDrops` | src/humaware_policy/humaware_policy_provider_scripted/humaware_policy_provider_scripted/plan.py:121-123 | The floor of elapsed over the shortest duration drops with every consumed segment |
| `WaypointPlan.AdvanceClosedForm` | src/humaware_policy/humaware_policy_provider_scripted/humaware_policy_provider_scripted/plan.py:90-137 | The result is exactly the one located progress whose prefix-sum position is start + dt modulo the plan length when looping, and start + dt cut off at the end otherwise |
| `WaypointPlan.TimesIsProduct` | src/humaware_policy/humaware_policy_provider_scripted/humaware_policy_provider_scripted/plan.py:124-127 | The number of rounds times the plan length, in the closed form, is the ordinary product |
| `WaypointPlan.AdvanceAdds` | src/humaware_policy/humaware_policy_provider_scripted/humaware_policy_provider_scripted/plan.py:90-137 | From every progress, advancing by a and then by b is advancing by a + b, through any number of segments, wraps and completion |
| `WaypointPlan.EmptyPlanCompletes` | src/humaware_policy/humaware_policy_provider_scripted/humaware_policy_provider_scripted/plan.py:99-113 | On an empty plan the result is the completed progress; it equals the progress given if and only if that was already the completed one at index 0 |
| `WaypointPlan.AdvanceWellFormed` | src/humaware_policy/humaware_policy_provider_scripted/humaware_policy_provider_scripted/plan.py:90-137 | 0 <= elapsed < duration[index] is kept by every advance that does not complete the plan |
| `WaypointPlan.CompletesExactly` | src/humaware_policy/humaware_policy_provider_scripted/humaware_policy_provider_scripted/plan.py:124-132 | A plan that does not loop completes exactly when position + dt reaches its total, and has a command exactly until then |
| `WaypointPlan.PositionDetermines` | src/humaware_policy/humaware_policy_provider_scripted/humaware_policy_provider_scripted/plan.py:31-36 | A position belongs to one place of the plan only |
| `WaypointPlan.CommandHoldsPosition` | src/humaware_policy/humaware_policy_provider_scripted/humaware_policy_provider_scripted/plan.py:140-146 | The command in force is that of the one waypoint whose time interval holds the position |
| `ScriptedProvider.PausesAreTransparent` | src/humaware_policy/humaware_policy_provider_scripted/humaware_policy_provider_scripted/policy_provider_scripted_node.py:109-137 | Over any interleaving of open and closed ticks and view changes, the published sequence is that of the open ticks alone, and k open ticks stand where a single advance by k periods leads |
| `ScriptedProvider.TicksPublishExactly` | src/humaware_policy/humaware_policy_provider_scripted/humaware_policy_provider_scripted/policy_provider_scripted_node.py:31-51 | In any run a tick publishes exactly if enabled, with newest mode AI_POLICY and newest safety heard of as OK or WARN, while the plan lasts; what it publishes are the two velocities of the waypoint one period on |
| `ScriptedProvider.ViewsAreNewest` | src/humaware_policy/humaware_policy_provider_scripted/humaware_policy_provider_scripted/policy_provider_scripted_node.py:102-107 | The views are the newest mode and safety state, and whether there was one |
| `ScriptedProvider.AfterOneMore` | src/humaware_policy/humaware_policy_provider_scripted/humaware_policy_provider_scripted/policy_provider_scripted_node.py:109-137 | One more period from wherever k periods have led is k + 1 periods from the start |
| `ScriptedProvider.ScriptedProviderNode.OnTimer` | src/humaware_policy/humaware_policy_provider_scripted/humaware_policy_provider_scripted/policy_provider_scripted_node.py:109-137 | New progress and publication of a tick; a closed gate changes nothing |
| `BagEvaluator.SummarizeTopicFreshness` | src/humaware_tools/humaware_bag_evaluator/humaware_bag_evaluator/evaluator.py:57-137 | The single pass over interleaved topics returns exactly the evaluation defined topic by topic; a name is missing if and only if it is required and no message has a topic naming it, as often and in the order it is required |
| `BagEvaluator.MissingIff` | src/humaware_tools/humaware_bag_evaluator/humaware_bag_evaluator/evaluator.py:111-117 | The same for the specified list: neither a name that was observed nor one that is not required, and every other one as often as required |
| `BagEvaluator.NoteMessage` | src/humaware_tools/humaware_bag_evaluator/humaware_bag_evaluator/evaluator.py:82-92 | The loop body keeps counts, first and last times and gaps those of each topic read alone |
| `BagEvaluator.NoteFields` | src/humaware_tools/humaware_bag_evaluator/humaware_bag_evaluator/evaluator.py:94-109 | The inner loop appends exactly the changes against the newest earlier value of each watched field |
| `BagMeaning.CoverageIsLongestSilence` | src/humaware_tools/humaware_bag_evaluator/humaware_bag_evaluator/evaluator.py:156-174 | For timestamps that never go back within a topic, the coverage gap is the length of the longest open interval inside the recording without a message of the topic |
| `BagMeaning.StaleIff` | src/humaware_tools/humaware_bag_evaluator/humaware_bag_evaluator/evaluator.py:126-130 | A topic is stale if and only if the recording holds a silence of it longer than max_gap_ns |
| `BagMeaning.SummariesTell` | src/humaware_tools/humaware_bag_evaluator/humaware_bag_evaluator/evaluator.py:77-92 | Exactly the recorded topics have summaries: number, first and last time of the topic's own messages, which are those of the recording in their order |
| `BagMeaning.AloneTells` | src/humaware_tools/humaware_bag_evaluator/humaware_bag_evaluator/evaluator.py:82-92 | The largest gap of a topic is reached between two neighbouring messages and by none exceeded |
| `BagMeaning.InterleavingDoesNotMatter` | src/humaware_tools/humaware_bag_evaluator/humaware_bag_evaluator/evaluator.py:77-137 | Message sequences with the same per-topic projections give equal summaries, missing lists, stale lists and per-field transition subsequences |
| `BagMeaning.LogIsFieldwise` | src/humaware_tools/humaware_bag_evaluator/humaware_bag_evaluator/evaluator.py:94-109 | The one-pass transition log, restricted to one field of one topic, is the run-length encoding of that field alone |
| `BagMeaning.LogGrows` | src/humaware_tools/humaware_bag_evaluator/humaware_bag_evaluator/evaluator.py:94-109 | The log only grows: a message adds events of its own topic and time at the end, in the order of the watched fields |
| `BagMeaning.LogChains` | src/humaware_tools/humaware_bag_evaluator/humaware_bag_evaluator/evaluator.py:94-109 | Events chain from the first value, never repeat a value and end in the newest one |
| `BagMeaning.LogReconstructs` | src/humaware_tools/humaware_bag_evaluator/humaware_bag_evaluator/evaluator.py:94-109 | First value and log tell, at every time, the newest value recorded by then |
| `BagMeaning.LogIsLossless` | src/humaware_tools/humaware_bag_evaluator/humaware_bag_evaluator/evaluator.py:94-109 | The evaluator's own log chains and gives back the value at a message exactly when the last message of the same timestamp agrees with it |
| `BagMeaning.SharedTimeHidesValue` | src/humaware_tools/humaware_bag_evaluator/humaware_bag_evaluator/evaluator.py:94-109 | Two messages of one watched topic and one timestamp: for that time the evaluator's log tells the second value, whatever the first was |
| `BagTopics.WatchedIffDirect` | src/humaware_tools/humaware_bag_evaluator/humaware_bag_evaluator/evaluator.py:195-201 | A topic is watched under a name if and only if it is that name under at most one level of namespace |
| `BagTopics.WatchedFieldsIff` | src/humaware_tools/humaware_bag_evaluator/humaware_bag_evaluator/evaluator.py:140-153 | Which fields are watched on which topics, by name, each under at most one level of namespace |
| `BagTopics.ProvidesIff` | src/humaware_tools/humaware_bag_evaluator/humaware_bag_evaluator/evaluator.py:177-192 | An observed topic provides a required one if and only if without its leading slashes it is that name or ends in a slash and that name |
| `BagTopics.WatchedIsPresent` | src/humaware_tools/humaware_bag_evaluator/humaware_bag_evaluator/evaluator.py:177-192 | A topic watched under a name makes that name present |
| `BagTopics.DeepNamespaceIsPresentUnwatched` | src/humaware_tools/humaware_bag_evaluator/humaware_bag_evaluator/evaluator.py:177-201 | Under two levels of namespace a topic counts as present, but none of its fields is watched |
| `StringOrder.SortWorks` | src/humaware_tools/humaware_bag_evaluator/humaware_bag_evaluator/evaluator.py:126-130 | The stale list is strictly sorted and has exactly the stale topics |
| `StringOrder.LessIsLexicographic` | src/humaware_tools/humaware_bag_evaluator/humaware_bag_evaluator/evaluator.py:126-130 | The order is the lexicographic one by code points |
| `StringOrder.SortedIsUnique` | src/humaware_tools/humaware_bag_evaluator/humaware_bag_evaluator/evaluator.py:126-130 | A set of topics has one sorted listing |

## Left out

- rclpy, DDS, QoS and executors appear only as channels, losses and timer events; a queue overflow is a loss.
- Floating-point rounding, NaN and infinities (velocities, plan durations) and the overflow of message integers.
- Enumeration values that no node publishes; the mode manager's initial mode is any mode, checked where a theorem needs it.
- Parameters other than the E-stop and the two MRM parameters are constants; that a parameter is read anew in each callback is not modelled.
- Headers, frame ids, owner, requester and message texts, log lines, and `format_summary`.
- The provider's candidate_enabled parameter enters each of its ticks as an input; plan files arrive already decoded.
- Terminal handling and help keys of the keyboard node, and its heartbeat publication.
- Nav2 bridge, keyboard and scripted provider are proved as nodes; in the composed runtime their commands are outside events that reach the arbiter at any moment, and heartbeats likewise reach the safety manager.
- The mock robot, the capability registry, the skill server, the diagnostics aggregator and the policy stub, which would only add decision tables and forwarding.
- Summary objects of the bag evaluator are values in a map that is updated entry by entry; that two names could share one object is not captured.
- Field values of the bag evaluator are numbers or flags; Python's equality between the two is not used by the watched fields.
- AdvanceProgress: a negative waypoint index, which the program never produces, is not modelled; nor are hand-built plans with a duration of zero or less, on which the loop need not end.
- StallTrapIff: negative heartbeat or watchdog timeouts are excluded; with them a heartbeat or command counts as late the moment it arrives.
- LockKeepsStop: a lock is sufficient; which weaker disciplines would do is not worked out.
- SettlesOnTime: that no earlier callback settles the stop is claimed only for a robot that has been commanded, because before any command the timer stands it at once.
