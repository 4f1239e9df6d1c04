/** The message vocabulary shared by every node: enumerations, velocities and time. */
module Messages {

  datatype Option<+T> = None | Some(value: T)

  /** Nanoseconds of the node clocks, and differences between them. */
  type Time = int
  type Duration = int

  datatype Mode =
    ModeUnknown | Maintenance | Inactive | Teleop | Autonomy | AiPolicy | ModeFault | Shutdown

  datatype Safety = SafetyUnknown | Ok | Warn | SafetyFault | Estop | Mrm

  datatype MrmState =
    MrmNone | MrmStop | MrmStabilize | MrmSit | MrmPowerLimited | MrmRequestTeleop | MrmFault

  datatype Loco =
    LocoUnknown | LocoInactive | Standing | Walking | Turning | Stopping | Recovering | LocoFault

  /** Linear (lx, ly, lz) and angular (ax, ay, az) velocity. */
  datatype Twist = Twist(lx: real, ly: real, lz: real, ax: real, ay: real, az: real)

  const ZERO := Twist(0.0, 0.0, 0.0, 0.0, 0.0, 0.0)

  /** The modes in which some command source may drive the robot. */
  predicate IsActive(m: Mode) {
    m == Teleop || m == Autonomy || m == AiPolicy
  }

  predicate IsAutonomous(m: Mode) {
    m == Autonomy || m == AiPolicy
  }

  /** The safety states under which motion is allowed. */
  predicate IsClear(s: Safety) {
    s == Ok || s == Warn
  }

  function Clamp(value: real, minimum: real, maximum: real): real {
    var capped := if value < maximum then value else maximum;
    if minimum < capped then capped else minimum
  }

  /**
   `y` is where an axis at `x` ends up: at `x` itself inside the limit, else at the end it is beyond. (A
   negative limit leaves no interval; the axis then ends up at its upper end.)
   */
  predicate Limited(x: real, limit: real, y: real) {
    if limit < 0.0 then y == -limit
    else
      && (-limit <= x <= limit ==> y == x)
      && (x > limit ==> y == limit)
      && (x < -limit ==> y == -limit)
  }

  function Distance(x: real, y: real): real {
    if x < y then y - x else x - y
  }

  /** Held within a limit means moved to the nearest point of the interval, and to no other. */
  lemma LimitedIsNearest(x: real, limit: real, y: real)
    requires limit >= 0.0
    ensures Limited(x, limit, y)
            <==> -limit <= y <= limit && forall z: real | -limit <= z <= limit :: Distance(x, y) <= Distance(x, z)
  {
    var nearest := if x > limit then limit else if x < -limit then -limit else x;
    assert forall z: real | -limit <= z <= limit :: Distance(x, nearest) <= Distance(x, z);
    if -limit <= y <= limit && forall z: real | -limit <= z <= limit :: Distance(x, y) <= Distance(x, z) {
      assert Distance(x, y) <= Distance(x, nearest);
    }
  }

  /** Clamping between a limit and its negative does exactly this, for all limits. */
  lemma ClampLimits(x: real, limit: real, y: real)
    ensures y == Clamp(x, -limit, limit) <==> Limited(x, limit, y)
  {}
}
