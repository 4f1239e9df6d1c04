/**
 The safety manager: watchdogs over heartbeats and approved commands, the service-driven MRM latch,
 and the pair of safety and MRM states it publishes.
 */
module SafetyManager {
  import opened Messages

  datatype HeartbeatPolicy = HeartbeatPolicy(name: string, timeout: Duration, triggerMrm: bool)

  datatype WatchdogResult = WatchdogResult(warnings: seq<string>, mrmReasons: seq<string>)

  datatype Config = Config(
    requireTeleop: bool, teleopTimeout: Duration, teleopTriggersMrm: bool,
    requireHardware: bool, hardwareTimeout: Duration, hardwareTriggersMrm: bool,
    monitorApproved: bool, approvedTimeout: Duration, approvedTriggersMrm: bool)
  {
    function TeleopPolicy(): HeartbeatPolicy {
      HeartbeatPolicy("teleop_heartbeat", teleopTimeout, teleopTriggersMrm)
    }

    function HardwarePolicy(): HeartbeatPolicy {
      HeartbeatPolicy("hardware_heartbeat", hardwareTimeout, hardwareTriggersMrm)
    }
  }

  /** The parameters an operator changes while the node runs. */
  datatype Parameters = Parameters(estop: bool, mrmActive: bool, mrmReason: string)

  datatype State = State(
    activeMode: Mode, teleopAt: Option<Time>, hardwareAt: Option<Time>, approvedAt: Option<Time>,
    serviceMrmActive: bool, serviceMrmReason: string, currentSafety: Safety)

  datatype SafetyMsg = SafetyMsg(
    state: Safety, estopEngaged: bool, mrmActive: bool, activeFaults: seq<string>, activeWarnings: seq<string>)

  datatype MrmMsg = MrmMsg(state: MrmState, reason: string, interventionRequested: bool)

  datatype ServiceResponse = ServiceResponse(accepted: bool, activeSafety: Safety)

  const INITIAL := State(Inactive, None, None, None, false, "", SafetyUnknown)

  function CheckHeartbeat(now: Time, lastSeen: Option<Time>, policy: HeartbeatPolicy)
    : Option<(string, bool)>
  {
    if lastSeen.None? then Some((policy.name + "_missing", policy.triggerMrm))
    else if now - lastSeen.value > policy.timeout then Some((policy.name + "_timeout", policy.triggerMrm))
    else None
  }

  function TeleopFinding(cfg: Config, s: State, now: Time): Option<(string, bool)> {
    if s.activeMode == Teleop && cfg.requireTeleop
    then CheckHeartbeat(now, s.teleopAt, cfg.TeleopPolicy()) else None
  }

  function HardwareFinding(cfg: Config, s: State, now: Time): Option<(string, bool)> {
    if IsActive(s.activeMode) && cfg.requireHardware
    then CheckHeartbeat(now, s.hardwareAt, cfg.HardwarePolicy()) else None
  }

  predicate ApprovedStale(cfg: Config, s: State, now: Time) {
    cfg.monitorApproved && s.approvedAt.Some? && IsActive(s.activeMode)
    && now - s.approvedAt.value > cfg.approvedTimeout
  }

  function ApprovedFinding(cfg: Config, s: State, now: Time): Option<(string, bool)> {
    if ApprovedStale(cfg, s, now)
    then Some(("approved_command_timeout", cfg.approvedTriggersMrm)) else None
  }

  /** The reason of a finding, if it goes to the asked-for list. */
  function Routed(finding: Option<(string, bool)>, toMrm: bool): seq<string> {
    if finding.Some? && finding.value.1 == toMrm then [finding.value.0] else []
  }

  function Watchdogs(cfg: Config, s: State, now: Time): WatchdogResult {
    var t, h, a := TeleopFinding(cfg, s, now), HardwareFinding(cfg, s, now), ApprovedFinding(cfg, s, now);
    WatchdogResult(Routed(t, false) + Routed(h, false) + Routed(a, false),
                   Routed(t, true) + Routed(h, true) + Routed(a, true))
  }

  function SelectMrmReason(
    par: Parameters, serviceActive: bool, serviceReason: string, watchdogReasons: seq<string>): string
  {
    if par.mrmActive && par.mrmReason != "" then par.mrmReason
    else if serviceActive && serviceReason != "" then serviceReason
    else if watchdogReasons != [] then watchdogReasons[0]
    else if par.mrmActive then "parameter_mrm_active"
    else if serviceActive then "service_mrm_active"
    else ""
  }

  function SafetyOutput(cfg: Config, par: Parameters, s: State, now: Time): SafetyMsg {
    var w := Watchdogs(cfg, s, now);
    var active := par.mrmActive || s.serviceMrmActive || w.mrmReasons != [];
    var reason := SelectMrmReason(par, s.serviceMrmActive, s.serviceMrmReason, w.mrmReasons);
    if par.estop then SafetyMsg(Estop, true, active, ["estop_engaged"], [])
    else if active then
      SafetyMsg(Mrm, false, true, [],
                ["minimal_risk_maneuver_active"] + w.warnings + (if reason != "" then [reason] else []))
    else if w.warnings != [] then SafetyMsg(Warn, false, false, [], w.warnings)
    else SafetyMsg(Ok, false, false, [], [])
  }

  function MrmOutput(cfg: Config, par: Parameters, s: State, now: Time): MrmMsg {
    var w := Watchdogs(cfg, s, now);
    var active := par.mrmActive || s.serviceMrmActive || w.mrmReasons != [];
    MrmMsg(if par.estop then MrmFault else if active then MrmStop else MrmNone,
           SelectMrmReason(par, s.serviceMrmActive, s.serviceMrmReason, w.mrmReasons), active || par.estop)
  }

  function OnTeleopHeartbeat(s: State, now: Time): State { s.(teleopAt := Some(now)) }

  function OnHardwareHeartbeat(s: State, now: Time): State { s.(hardwareAt := Some(now)) }

  function OnApproved(s: State, now: Time): State { s.(approvedAt := Some(now)) }

  function OnMode(s: State, mode: Mode): State { s.(activeMode := mode) }

  /** The state after publishing. */
  function Published(cfg: Config, par: Parameters, s: State, now: Time): State {
    s.(currentSafety := SafetyOutput(cfg, par, s, now).state)
  }

  /** The latch after a trigger request, before its publication. */
  function Latched(s: State, reason: string): State {
    s.(serviceMrmActive := true,
       serviceMrmReason := if reason != "" then reason else "manual_mrm_trigger")
  }

  /** The latch after an accepted clear request, before its publication. */
  function Unlatched(s: State): State {
    s.(serviceMrmActive := false, serviceMrmReason := "")
  }

  // ---------------------------------------------------------------- properties

  ghost predicate HeartbeatLost(now: Time, lastSeen: Option<Time>, timeout: Duration) {
    lastSeen.None? || now - lastSeen.value > timeout
  }

  /** Some watchdog finding of the given severity holds, said without lists or strings. */
  ghost predicate SomeFinding(cfg: Config, s: State, now: Time, mrm: bool) {
    || (s.activeMode == Teleop && cfg.requireTeleop && cfg.teleopTriggersMrm == mrm
        && HeartbeatLost(now, s.teleopAt, cfg.teleopTimeout))
    || (IsActive(s.activeMode) && cfg.requireHardware && cfg.hardwareTriggersMrm == mrm
        && HeartbeatLost(now, s.hardwareAt, cfg.hardwareTimeout))
    || (IsActive(s.activeMode) && cfg.monitorApproved && cfg.approvedTriggersMrm == mrm
        && s.approvedAt.Some? && now - s.approvedAt.value > cfg.approvedTimeout)
  }

  /** The published level, decided by demands and findings: E-stop over MRM over warning over OK. */
  lemma PublishedLevel(cfg: Config, par: Parameters, s: State, now: Time)
    ensures var demand := par.mrmActive || s.serviceMrmActive || SomeFinding(cfg, s, now, true);
      SafetyOutput(cfg, par, s, now).state
      == (if par.estop then Estop else if demand then Mrm
          else if SomeFinding(cfg, s, now, false) then Warn else Ok)
      && SafetyOutput(cfg, par, s, now).mrmActive == demand
  {}

  /** The two published messages agree, and a reason is given exactly for an active MRM. */
  lemma PublicationsCohere(cfg: Config, par: Parameters, s: State, now: Time)
    ensures var safety, mrm := SafetyOutput(cfg, par, s, now), MrmOutput(cfg, par, s, now);
      && (mrm.reason != "" <==> safety.mrmActive)
      && (mrm.state == MrmNone <==> safety.state in {Ok, Warn})
      && (mrm.state == MrmStop <==> safety.state == Mrm)
      && (mrm.state == MrmFault <==> safety.state == Estop)
      && (mrm.interventionRequested <==> safety.state in {Mrm, Estop})
      && (safety.activeFaults != [] <==> safety.state == Estop)
      && (safety.state == Mrm ==> mrm.reason in safety.activeWarnings)
  {}

  /** A parameter MRM's own reason comes first, then the service's, then the first watchdog's, then a default. */
  lemma ReasonPriority(cfg: Config, par: Parameters, s: State, now: Time)
    ensures var r, w := MrmOutput(cfg, par, s, now).reason, Watchdogs(cfg, s, now).mrmReasons;
      var byParameter := par.mrmActive && par.mrmReason != "";
      var byService := s.serviceMrmActive && s.serviceMrmReason != "";
      && (byParameter ==> r == par.mrmReason)
      && (!byParameter && byService ==> r == s.serviceMrmReason)
      && (!byParameter && !byService && w != [] ==> r == w[0])
      && (!byParameter && !byService && w == [] && par.mrmActive ==> r == "parameter_mrm_active")
      && (!byParameter && !byService && w == [] && !par.mrmActive && s.serviceMrmActive ==> r == "service_mrm_active")
      && (!par.mrmActive && !s.serviceMrmActive && w == [] ==> r == "")
  {}

  /** Which findings the lists name, and in which order: teleop, hardware, approved command. */
  predicate TeleopMissing(cfg: Config, s: State) {
    s.activeMode == Teleop && cfg.requireTeleop && s.teleopAt.None?
  }

  predicate TeleopLate(cfg: Config, s: State, now: Time) {
    s.activeMode == Teleop && cfg.requireTeleop && s.teleopAt.Some? && now - s.teleopAt.value > cfg.teleopTimeout
  }

  predicate HardwareMissing(cfg: Config, s: State) {
    s.activeMode in {Teleop, Autonomy, AiPolicy} && cfg.requireHardware && s.hardwareAt.None?
  }

  predicate HardwareLate(cfg: Config, s: State, now: Time) {
    && s.activeMode in {Teleop, Autonomy, AiPolicy} && cfg.requireHardware
    && s.hardwareAt.Some? && now - s.hardwareAt.value > cfg.hardwareTimeout
  }

  predicate CommandLate(cfg: Config, s: State, now: Time) {
    && s.activeMode in {Teleop, Autonomy, AiPolicy} && cfg.monitorApproved
    && s.approvedAt.Some? && now - s.approvedAt.value > cfg.approvedTimeout
  }

  function TeleopName(cfg: Config, s: State, now: Time): seq<string> {
    if TeleopMissing(cfg, s) then ["teleop_heartbeat_missing"]
    else if TeleopLate(cfg, s, now) then ["teleop_heartbeat_timeout"] else []
  }

  function HardwareName(cfg: Config, s: State, now: Time): seq<string> {
    if HardwareMissing(cfg, s) then ["hardware_heartbeat_missing"]
    else if HardwareLate(cfg, s, now) then ["hardware_heartbeat_timeout"] else []
  }

  function CommandName(cfg: Config, s: State, now: Time): seq<string> {
    if CommandLate(cfg, s, now) then ["approved_command_timeout"] else []
  }

  /** The findings of the given severity by name, in order. */
  function Findings(cfg: Config, s: State, now: Time, mrm: bool): seq<string> {
    (if cfg.teleopTriggersMrm == mrm then TeleopName(cfg, s, now) else [])
    + (if cfg.hardwareTriggersMrm == mrm then HardwareName(cfg, s, now) else [])
    + (if cfg.approvedTriggersMrm == mrm then CommandName(cfg, s, now) else [])
  }

  lemma TeleopIsNamed(cfg: Config, s: State, now: Time, mrm: bool)
    ensures Routed(TeleopFinding(cfg, s, now), mrm)
            == if cfg.teleopTriggersMrm == mrm then TeleopName(cfg, s, now) else []
  {
    assert "teleop_heartbeat" + "_missing" == "teleop_heartbeat_missing";
    assert "teleop_heartbeat" + "_timeout" == "teleop_heartbeat_timeout";
  }

  lemma HardwareIsNamed(cfg: Config, s: State, now: Time, mrm: bool)
    ensures Routed(HardwareFinding(cfg, s, now), mrm)
            == if cfg.hardwareTriggersMrm == mrm then HardwareName(cfg, s, now) else []
  {
    assert "hardware_heartbeat" + "_missing" == "hardware_heartbeat_missing";
    assert "hardware_heartbeat" + "_timeout" == "hardware_heartbeat_timeout";
  }

  lemma FindingsAreNamed(cfg: Config, s: State, now: Time, mrm: bool)
    ensures Routed(TeleopFinding(cfg, s, now), mrm) + Routed(HardwareFinding(cfg, s, now), mrm)
            + Routed(ApprovedFinding(cfg, s, now), mrm) == Findings(cfg, s, now, mrm)
  {
    TeleopIsNamed(cfg, s, now, mrm);
    HardwareIsNamed(cfg, s, now, mrm);
  }

  /** The watchdogs' lists and the published lists of faults and warnings, name by name. */
  lemma ListsNameFindings(cfg: Config, par: Parameters, s: State, now: Time)
    ensures Watchdogs(cfg, s, now) == WatchdogResult(Findings(cfg, s, now, false), Findings(cfg, s, now, true))
    ensures var out, warnings := SafetyOutput(cfg, par, s, now), Findings(cfg, s, now, false);
      && out.activeFaults == (if out.state == Estop then ["estop_engaged"] else [])
      && out.estopEngaged == par.estop
      && (out.state == Warn ==> out.activeWarnings == warnings)
      && (out.state == Mrm ==>
            out.activeWarnings == ["minimal_risk_maneuver_active"] + warnings + [MrmOutput(cfg, par, s, now).reason])
      && (out.state in {Ok, Estop} ==> out.activeWarnings == [])
  {
    FindingsAreNamed(cfg, s, now, false);
    FindingsAreNamed(cfg, s, now, true);
    PublicationsCohere(cfg, par, s, now);
  }

  // ---------------------------------------------------------------- the node

  class SafetyManagerNode {
    const cfg: Config
    var activeMode: Mode
    var teleopAt: Option<Time>
    var hardwareAt: Option<Time>
    var approvedAt: Option<Time>
    var serviceMrmActive: bool
    var serviceMrmReason: string
    var currentSafety: Safety

    ghost function View(): State
      reads this
    {
      State(activeMode, teleopAt, hardwareAt, approvedAt, serviceMrmActive, serviceMrmReason, currentSafety)
    }

    constructor (cfg: Config)
      ensures this.cfg == cfg && View() == INITIAL
    {
      this.cfg := cfg;
      activeMode := Inactive;
      teleopAt, hardwareAt, approvedAt := None, None, None;
      serviceMrmActive := false;
      serviceMrmReason := "";
      currentSafety := SafetyUnknown;
    }

    method OnTeleopHeartbeatMsg(now: Time)
      modifies this
      ensures View() == OnTeleopHeartbeat(old(View()), now)
    {
      teleopAt := Some(now);
    }

    method OnHardwareHeartbeatMsg(now: Time)
      modifies this
      ensures View() == OnHardwareHeartbeat(old(View()), now)
    {
      hardwareAt := Some(now);
    }

    method OnApprovedCommand(now: Time)
      modifies this
      ensures View() == OnApproved(old(View()), now)
    {
      approvedAt := Some(now);
    }

    method OnModeState(mode: Mode)
      modifies this
      ensures View() == OnMode(old(View()), mode)
    {
      activeMode := mode;
    }

    /** Puts a finding into the list its severity asks for. */
    static method Append(result: WatchdogResult, finding: Option<(string, bool)>) returns (longer: WatchdogResult)
      ensures longer == WatchdogResult(
                result.warnings + Routed(finding, false), result.mrmReasons + Routed(finding, true))
    {
      if finding.None? { return result; }
      var (reason, triggersMrm) := finding.value;
      if triggersMrm {
        longer := result.(mrmReasons := result.mrmReasons + [reason]);
      } else {
        longer := result.(warnings := result.warnings + [reason]);
      }
    }

    method EvaluateWatchdogs(now: Time) returns (result: WatchdogResult)
      ensures result == Watchdogs(cfg, View(), now)
    {
      result := WatchdogResult([], []);
      if activeMode == Teleop && cfg.requireTeleop {
        result := Append(result, CheckHeartbeat(now, teleopAt, cfg.TeleopPolicy()));
      }
      ghost var t, h := TeleopFinding(cfg, View(), now), HardwareFinding(cfg, View(), now);
      assert result == WatchdogResult(Routed(t, false), Routed(t, true));
      if activeMode in {Teleop, Autonomy, AiPolicy} && cfg.requireHardware {
        result := Append(result, CheckHeartbeat(now, hardwareAt, cfg.HardwarePolicy()));
      }
      assert result == WatchdogResult(Routed(t, false) + Routed(h, false), Routed(t, true) + Routed(h, true));
      if cfg.monitorApproved && approvedAt.Some? && activeMode in {Teleop, Autonomy, AiPolicy}
         && now - approvedAt.value > cfg.approvedTimeout
      {
        result := Append(result, Some(("approved_command_timeout", cfg.approvedTriggersMrm)));
      }
    }

    method PublishState(par: Parameters, now: Time) returns (safety: SafetyMsg, mrm: MrmMsg)
      modifies this`currentSafety
      ensures safety == SafetyOutput(cfg, par, old(View()), now)
      ensures mrm == MrmOutput(cfg, par, old(View()), now)
      ensures View() == Published(cfg, par, old(View()), now)
    {
      var watchdogs := EvaluateWatchdogs(now);
      var reason := SelectMrmReason(par, serviceMrmActive, serviceMrmReason, watchdogs.mrmReasons);
      var mrmActive := par.mrmActive || serviceMrmActive || watchdogs.mrmReasons != [];

      var level, faults, warnings := Ok, [], [];
      if par.estop {
        level := Estop;
        faults := ["estop_engaged"];
      } else if mrmActive {
        level := Mrm;
        warnings := ["minimal_risk_maneuver_active"] + watchdogs.warnings;
        if reason != "" { warnings := warnings + [reason]; }
      } else if watchdogs.warnings != [] {
        level := Warn;
        warnings := watchdogs.warnings;
      }
      currentSafety := level;
      safety := SafetyMsg(level, par.estop, mrmActive, faults, warnings);

      var mrmState := MrmNone;
      if par.estop { mrmState := MrmFault; } else if mrmActive { mrmState := MrmStop; }
      mrm := MrmMsg(mrmState, reason, mrmActive || par.estop);
    }

    method HandleTriggerMrm(par: Parameters, reason: string, now: Time)
      returns (response: ServiceResponse, safety: SafetyMsg, mrm: MrmMsg)
      modifies this
      ensures var latched := Latched(old(View()), reason);
        && View() == Published(cfg, par, latched, now)
        && safety == SafetyOutput(cfg, par, latched, now) && mrm == MrmOutput(cfg, par, latched, now)
        && response == ServiceResponse(true, safety.state)
    {
      serviceMrmActive := true;
      serviceMrmReason := if reason != "" then reason else "manual_mrm_trigger";
      safety, mrm := PublishState(par, now);
      response := ServiceResponse(true, currentSafety);
    }

    method HandleClearMrm(par: Parameters, now: Time)
      returns (response: ServiceResponse, published: Option<(SafetyMsg, MrmMsg)>)
      modifies this
      ensures par.estop ==> View() == old(View()) && published.None?
                            && response == ServiceResponse(false, Estop)
      ensures !par.estop ==> var cleared := Unlatched(old(View()));
                View() == Published(cfg, par, cleared, now)
                && published == Some((SafetyOutput(cfg, par, cleared, now), MrmOutput(cfg, par, cleared, now)))
                && response == ServiceResponse(true, View().currentSafety)
    {
      if par.estop { return ServiceResponse(false, Estop), None; }
      serviceMrmActive := false;
      serviceMrmReason := "";
      var safety, mrm := PublishState(par, now);
      return ServiceResponse(true, currentSafety), Some((safety, mrm));
    }
  }
}
