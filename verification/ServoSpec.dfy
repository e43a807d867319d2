/** What one update of the F-KR virtual servo does, as functions on a value.
    The class in Servo.dfy is proved to follow these functions; the motion
    theorems in the other files are about them. */
module ServoSpec {
  import opened Reals
  import opened Words
  import opened StateMachine

  const EPS: real := 0.000000001
  const SCALE_FLOOR: real := 0.000000000001

  /** The configuration objects that a device preset defines. */
  datatype Config = Config(
    positionExponent: int,             // 0x2194:1
    velocityExponent: int,             // 0x2194:2
    accelerationExponent: int,         // 0x2194:3
    firstPositionLimit: real,          // 0x607D:1
    secondPositionLimit: real,         // 0x607D:2
    window: real,                 // 0x6067
    windowTime: real,             // 0x6068, milliseconds
    maxProfileVelocity: real,     // 0x607F
    negativeVelocityLimit: real,       // 0x2183:0C
    acceleration: real,           // 0x6083
    deceleration: real)           // 0x6084
  {
    /** The objects of an unsigned type decode to non-negative values. */
    predicate Valid() {
      window >= 0.0 && windowTime >= 0.0 && maxProfileVelocity >= 0.0
      && acceleration >= 0.0 && deceleration >= 0.0
    }
  }

  /** The decoded RxPDO; torque and offset objects are never read by the servo. */
  datatype RxPdo = RxPdo(
    controlword: bv16,                 // 0x6040
    mode: int,                         // 0x6060
    target: real,                      // 0x607A
    profileVelocity: real,             // 0x6081
    targetVelocity: real)              // 0x60FF

  /** The TxPDO objects; the servo has no torque of its own. */
  datatype TxPdo = TxPdo(
    statusword: bv16,                  // 0x6041
    modeDisplay: int,                  // 0x6061
    position: real,                    // 0x6064
    velocity: real)                    // 0x606C

  /** Device reset and parameter save objects. */
  datatype Commands = Commands(
    reset: int,                        // 0x2000:1
    save: int,                         // 0x2005:1
    saveStatus: int,                   // 0x2005:2
    saveReturnCode: int,               // 0x2005:4
    saveReturnValue: int)              // 0x2005:5

  /** The object dictionary entries the servo reads or writes. */
  datatype Od = Od(rx: RxPdo, tx: TxPdo, config: Config, commands: Commands)

  datatype Axis = Axis(position: real, velocity: real)
  datatype Pp = Pp(active: bool, target: real, ack: bool)
  datatype Homing = Homing(active: bool, counter: int, referenced: bool, error: bool)
  datatype Window = Window(reached: bool, counter: int)
  datatype Limits = Limits(warning: bool, rejected: bool)
  datatype Last = Last(mode: int, target: real, reset: int, save: int)

  datatype Servo = Servo(
    preset: Config,
    od: Od,
    state: State,
    axis: Axis,
    pp: Pp,
    homing: Homing,
    window: Window,
    limits: Limits,
    last: Last,
    halt: bool,
    previousControlword: bv16,
    gain: real)

  /** PDO entries at their defaults. */
  const RX_DEFAULT := RxPdo(0, 8, 0.0, 0.0, 0.0)
  const TX_DEFAULT := TxPdo(0x0040, 8, 0.0, 0.0)

  function Initial(preset: Config): Servo {
    Servo(preset, Od(RX_DEFAULT, TX_DEFAULT, preset, Commands(0, 0, 0, 0, 0)), SwitchOnDisabled,
          Axis(0.0, 0.0), Pp(false, 0.0, false), Homing(false, 0, false, false),
          Window(false, 0), Limits(false, false), Last(8, 0.0, 0, 0), false, 0, 5.0)
  }

  predicate Enabled(s: Servo) {
    s.state == OperationEnabled
  }

  // ---- Units ----

  function UnitScale(exponent: int): (r: real)
    ensures r >= SCALE_FLOOR
  {
    Max(1.0 / Pow10(if exponent > 0 then exponent else -exponent), SCALE_FLOOR)
  }

  function VelocityRate(c: Config, velocity: real): real {
    velocity * UnitScale(c.velocityExponent) / UnitScale(c.positionExponent)
  }

  function RateVelocity(c: Config, rate: real): real {
    rate * UnitScale(c.positionExponent) / UnitScale(c.velocityExponent)
  }

  function AccelerationRate(c: Config, acceleration: real): real {
    acceleration * UnitScale(c.accelerationExponent) / UnitScale(c.positionExponent)
  }

  function VelocityDelta(c: Config, acceleration: real, dt: real): real {
    acceleration * UnitScale(c.accelerationExponent) / UnitScale(c.velocityExponent) * dt
  }

  /** Position counts travelled per velocity unit and second. */
  function Kv(c: Config): real {
    UnitScale(c.velocityExponent) / UnitScale(c.positionExponent)
  }

  /** Velocity units gained per acceleration unit and second. */
  function Ka(c: Config): real {
    UnitScale(c.accelerationExponent) / UnitScale(c.velocityExponent)
  }

  // ---- Limits ----

  function LowerLimit(c: Config): real {
    Min(c.firstPositionLimit, c.secondPositionLimit)
  }

  function UpperLimit(c: Config): real {
    Max(c.firstPositionLimit, c.secondPositionLimit)
  }

  predicate WithinLimits(c: Config, position: real) {
    LowerLimit(c) <= position <= UpperLimit(c)
  }

  function NegativeVelocityLimit(c: Config): real {
    Abs(c.negativeVelocityLimit * 1000.0)
  }

  // ---- Commands found in the object dictionary ----

  function WriteRx(s: Servo, pdo: RxPdo): Servo {
    s.(od := s.od.(rx := pdo))
  }

  function WriteFeedback(s: Servo): Servo {
    s.(od := s.od.(tx := s.od.tx.(position := s.axis.position, velocity := s.axis.velocity)))
  }

  function WriteTarget(s: Servo, target: real): Servo {
    s.(od := s.od.(rx := s.od.rx.(target := target)))
  }

  function StopAtCurrentPosition(s: Servo): Servo {
    var x := s.axis.position;
    WriteFeedback(WriteTarget(
      s.(axis := Axis(x, 0.0), pp := s.pp.(active := false, target := x),
         window := Window(true, 0), last := s.last.(target := x)), x))
  }

  /** Device reset: configuration and PDO entries return to their defaults, which
      zeroes the controlword, while the reported position is kept. */
  function DeviceReset(s: Servo): Servo {
    var x := s.od.tx.position;
    s.(od := s.od.(config := s.preset, rx := RX_DEFAULT.(target := x),
                   tx := TxPdo(0x0027, RX_DEFAULT.mode, x, 0.0)),
       last := s.last.(mode := RX_DEFAULT.mode, target := x))
  }

  function ResetStep(s: Servo): Servo {
    var reset := s.od.commands.reset;
    var s1 := if reset != s.last.reset && reset == 1 then DeviceReset(s) else s;
    s1.(last := s1.last.(reset := reset))
  }

  function SaveStep(s: Servo): Servo {
    var save := s.od.commands.save;
    var s1 := if save != s.last.save && save == 1
              then s.(od := s.od.(commands := s.od.commands.(saveStatus := 0, saveReturnCode := 0,
                                                             saveReturnValue := 1)))
              else s;
    s1.(last := s1.last.(save := save))
  }

  function SetMode(s: Servo, mode: int, previous: int): Servo {
    var s1 := if mode == previous then s else
                var stopped := StopAtCurrentPosition(s);
                if mode == 6 then stopped
                else stopped.(homing := stopped.homing.(active := false, error := false));
    s1.(od := s1.od.(rx := s1.od.rx.(mode := mode), tx := s1.od.tx.(modeDisplay := mode)),
        last := s1.last.(mode := mode))
  }

  predicate NeedsReference(s: Servo) {
    (s.od.rx.mode == 1 || s.od.rx.mode == 8) && !s.homing.referenced
  }

  function SetTarget(s: Servo, position: real, previous: real): Servo {
    if NeedsReference(s) then
      WriteTarget(s, previous).(last := s.last.(target := previous))
    else if !WithinLimits(s.od.config, position) then
      var stopped := StopAtCurrentPosition(s.(limits := Limits(true, true)));
      stopped.(window := stopped.window.(reached := false))
    else
      var warning := s.limits.warning && !WithinLimits(s.od.config, s.axis.position);
      var window := if position == previous then s.window else Window(false, 0);
      WriteTarget(s, position).(limits := Limits(warning, false), window := window,
                                last := s.last.(target := position))
  }

  function ApplyCommands(s: Servo): Servo {
    var s1 := SaveStep(ResetStep(s));
    var mode, target := s1.od.rx.mode, s1.od.rx.target;
    var s2 := if mode == s1.last.mode then s1 else SetMode(s1, mode, s1.last.mode);
    if target == s2.last.target then s2 else SetTarget(s2, target, s2.last.target)
  }

  // ---- Motion ----

  function MoveTowards(current: real, target: real, maxDelta: real): real {
    if maxDelta <= 0.0 then current
    else if Abs(target - current) <= maxDelta then target
    else if target > current then current + maxDelta
    else current - maxDelta
  }

  /** Velocity approaches a target by at most an acceleration's worth, then the
      position follows the new velocity. */
  function Integrate(c: Config, a: Axis, targetVelocity: real, acceleration: real, dt: real): Axis {
    var v := MoveTowards(a.velocity, targetVelocity, VelocityDelta(c, acceleration, dt));
    Axis(a.position + VelocityRate(c, v) * dt, v)
  }

  function Decelerate(s: Servo, dt: real): Servo {
    var c := s.od.config;
    WriteFeedback(s.(axis := Integrate(c, s.axis, 0.0, c.deceleration, dt)))
  }

  predicate InPosition(od: Od) {
    Abs(od.rx.target - od.tx.position) <= od.config.window
  }

  /** Cycles the position must stay in the window before the target counts as reached. */
  function RequiredCount(windowTime: real, dt: real): (n: int)
    requires dt > 0.0
    ensures n >= 1
  {
    var n := Trunc(windowTime / (dt * 1000.0));
    if n < 1 then 1 else n
  }

  function UpdateTargetReached(s: Servo, dt: real): Servo
    requires dt > 0.0
  {
    var inside := InPosition(s.od);
    var counter := if inside then s.window.counter + 1 else 0;
    s.(window := Window((inside && s.window.reached)
                        || counter >= RequiredCount(s.od.config.windowTime, dt), counter))
  }

  predicate RisingBit4(s: Servo) {
    Bit(s.od.rx.controlword, 0x0010) && !Bit(s.previousControlword, 0x0010)
  }

  function HomingCycles(dt: real): (n: int)
    requires dt > 0.0
    ensures n >= 1
  {
    var n := Trunc(0.1 / dt);
    if n < 1 then 1 else n
  }

  function StartHoming(s: Servo, dt: real): Servo
    requires dt > 0.0
  {
    WriteFeedback(s.(homing := Homing(true, HomingCycles(dt), false, false),
                     axis := s.axis.(velocity := 0.0), window := s.window.(reached := false)))
  }

  function FinishHoming(s: Servo): Servo {
    WriteFeedback(WriteTarget(
      s.(homing := s.homing.(active := false, referenced := true),
         axis := Axis(0.0, 0.0), window := s.window.(reached := true)), 0.0))
  }

  /** A homing start edge divides by the elapsed time. */
  predicate HomingTimed(s: Servo) {
    Enabled(s) && RisingBit4(s)
  }

  function ProcessHoming(s: Servo, dt: real): Servo
    requires dt > 0.0 || !HomingTimed(s)
  {
    if !Enabled(s) then s
    else
      var s1 := if RisingBit4(s) then StartHoming(s, dt) else s;
      if !s1.homing.active then s1
      else
        var s2 := s1.(homing := s1.homing.(counter := s1.homing.counter - 1));
        if s2.homing.counter > 0 then s2 else FinishHoming(s2)
  }

  /** The velocity a positioning move or a CSP target may use on its side. */
  function SideVelocity(c: Config, profileVelocity: real, target: real, position: real): real {
    var negative := NegativeVelocityLimit(c);
    var limit := if target < position && negative > 0.0 then negative else c.maxProfileVelocity;
    if limit > 0.0 then Min(profileVelocity, limit) else profileVelocity
  }

  datatype Motion = Motion(axis: Axis, active: bool)

  /** The distance needed to brake to rest, in position counts. */
  function BrakeLength(speed: real, brake: real): real {
    if brake > 0.0 then speed * speed / (2.0 * brake) else 0.0
  }

  /** A quantity counted positive in the direction of travel. */
  function Signed(forward: bool, x: real): real {
    if forward then x else -x
  }

  /** The braking distance of a velocity in a direction. */
  function StoppingDistance(c: Config, velocity: real, forward: bool): real {
    BrakeLength(Max(Signed(forward, VelocityRate(c, velocity)), 0.0),
                AccelerationRate(c, c.deceleration))
  }

  /** The target lies at or between the old and the next position. */
  predicate Reaches(error: real, nextError: real) {
    error == 0.0 || error * nextError <= 0.0
  }

  /** One cycle of the positioning profile. */
  function PpMove(c: Config, a: Axis, target: real, maxVelocity: real, dt: real): Motion {
    var error := target - a.position;
    var distance := Abs(error);
    if distance <= c.window && Abs(a.velocity) <= Max(VelocityDelta(c, c.deceleration, dt), EPS) then
      Motion(Axis(target, 0.0), false)
    else
      var forward := error >= 0.0;
      var braking := Signed(forward, a.velocity) < 0.0
                     || distance <= StoppingDistance(c, a.velocity, forward);
      var next := Integrate(c, a, if braking then 0.0 else Signed(forward, maxVelocity),
                            if braking then c.deceleration else c.acceleration, dt);
      if Reaches(error, target - next.position) then Motion(Axis(target, 0.0), false)
      else Motion(next, true)
  }

  function AdvanceProfile(s: Servo, dt: real): Servo {
    var m := PpMove(s.od.config, s.axis, s.pp.target,
                    SideVelocity(s.od.config, s.od.rx.profileVelocity, s.pp.target, s.axis.position), dt);
    WriteFeedback(s.(axis := m.axis, pp := s.pp.(active := m.active)))
  }

  /** Counting the position window divides by the elapsed time. */
  predicate PpTimed(s: Servo) {
    Enabled(s) && !s.halt && s.homing.referenced && !(RisingBit4(s) && s.limits.rejected)
  }

  function ProcessPp(s: Servo, dt: real): Servo
    requires dt > 0.0 || !PpTimed(s)
  {
    if !Enabled(s) then s
    else if s.halt then
      var s1 := Decelerate(s.(pp := s.pp.(active := false, ack := false)), dt);
      s1.(window := s1.window.(reached := Abs(s1.axis.velocity) <= EPS))
    else if !s.homing.referenced then
      Decelerate(s.(pp := s.pp.(active := false, ack := false),
                    window := s.window.(reached := false)), dt)
    else if RisingBit4(s) && s.limits.rejected then
      Decelerate(s.(pp := s.pp.(active := false, ack := false)), dt)
    else
      var s1 := if RisingBit4(s)
                then s.(pp := Pp(true, s.od.rx.target, true), window := Window(false, 0))
                else s.(pp := s.pp.(ack := Bit(s.od.rx.controlword, 0x0010)));
      UpdateTargetReached(if s1.pp.active then AdvanceProfile(s1, dt) else Decelerate(s1, dt), dt)
  }

  /** Speeding up uses the profile acceleration, anything else the deceleration. */
  function Ramp(c: Config, targetVelocity: real, velocity: real): real {
    if Abs(targetVelocity) > Abs(velocity) then c.acceleration else c.deceleration
  }

  /** Follow a velocity command with the matching ramp. */
  function Follow(s: Servo, v: real, dt: real): Servo {
    var c := s.od.config;
    WriteFeedback(s.(axis := Integrate(c, s.axis, v, Ramp(c, v, s.axis.velocity), dt)))
  }

  function PvTarget(s: Servo): real {
    var v := if s.halt then 0.0 else s.od.rx.targetVelocity;
    var positive, negative := s.od.config.maxProfileVelocity, NegativeVelocityLimit(s.od.config);
    if v >= 0.0 && positive > 0.0 then Min(v, positive)
    else if v < 0.0 && negative > 0.0 then Max(v, -negative)
    else v
  }

  function ProcessPv(s: Servo, dt: real): Servo {
    if !Enabled(s) then s
    else
      var v := PvTarget(s);
      var s1 := Follow(s, v, dt);
      var delta := VelocityDelta(s.od.config, Ramp(s.od.config, v, s.axis.velocity), dt);
      s1.(window := s1.window.(reached := Abs(s1.axis.velocity - v) <= Max(delta, EPS)))
  }

  /** The smallest configured (non-zero) velocity limit. */
  function SmallestLimit(a: real, b: real, c: real): real {
    var ab := if a > 0.0 && (b <= 0.0 || a <= b) then a else if b > 0.0 then b else 0.0;
    if c > 0.0 && (ab <= 0.0 || c < ab) then c else ab
  }

  function JogVelocity(od: Od): real {
    SmallestLimit(od.rx.profileVelocity, od.config.maxProfileVelocity, NegativeVelocityLimit(od.config))
    * (if Bit(od.rx.controlword, 0x1000) then 1.0
       else if Bit(od.rx.controlword, 0x0800) then 0.25
       else 0.5)
  }

  /** The jog command before limits: one direction bit, and no halt. */
  function JogCommand(s: Servo): real {
    var forward, backward := Bit(s.od.rx.controlword, 0x0010), Bit(s.od.rx.controlword, 0x0020);
    if forward == backward || s.halt then 0.0
    else if forward then JogVelocity(s.od) else -JogVelocity(s.od)
  }

  /** The jog target velocity; at or beyond a software limit only the way back is open. */
  function JogTarget(c: Config, position: real, v: real): real {
    if Abs(v) <= SCALE_FLOOR then 0.0
    else if v > 0.0 && position >= UpperLimit(c) then 0.0
    else if v < 0.0 && position <= LowerLimit(c) then 0.0
    else v
  }

  function ProcessJog(s: Servo, dt: real): Servo {
    if !Enabled(s) then s
    else
      var s1 := Follow(s, JogTarget(s.od.config, s.axis.position, JogCommand(s)), dt);
      s1.(window := s1.window.(reached := Abs(s1.axis.velocity) <= EPS))
  }

  function Clamp(x: real, bound: real): real {
    Max(Min(x, bound), -bound)
  }

  /** The velocity the CSP position loop asks for. */
  function CspDemand(s: Servo): real {
    RateVelocity(s.od.config, s.gain * (s.od.rx.target - s.axis.position))
  }

  /** One cycle of the CSP position loop. */
  function CspMove(c: Config, a: Axis, demand: real, maxVelocity: real, dt: real): Axis {
    var desired := Clamp(demand, maxVelocity);
    var delta := VelocityDelta(c, Ramp(c, desired, a.velocity), dt);
    var v := a.velocity + Clamp(desired - a.velocity, delta);
    Axis(a.position + VelocityRate(c, v) * dt, v)
  }

  predicate CspTimed(s: Servo) {
    Enabled(s) && !s.halt && s.homing.referenced
  }

  function ProcessCsp(s: Servo, dt: real): Servo
    requires dt > 0.0 || !CspTimed(s)
  {
    if !Enabled(s) then s
    else if s.halt then
      var s1 := Decelerate(s, dt);
      s1.(window := s1.window.(reached := Abs(s1.axis.velocity) <= EPS))
    else if !s.homing.referenced then
      Decelerate(s.(window := s.window.(reached := false)), dt)
    else
      var a := CspMove(s.od.config, s.axis, CspDemand(s),
                       SideVelocity(s.od.config, s.od.rx.profileVelocity, s.od.rx.target, s.axis.position), dt);
      UpdateTargetReached(WriteFeedback(s.(axis := a)), dt)
  }

  /** The active mode needs elapsed time. */
  predicate ModeTimed(s: Servo) {
    match s.od.rx.mode
    case 1 => PpTimed(s)
    case 8 => CspTimed(s)
    case 6 => HomingTimed(s)
    case _ => false
  }

  function ProcessMode(s: Servo, dt: real): Servo
    requires dt > 0.0 || !ModeTimed(s)
  {
    match s.od.rx.mode
    case 1 => ProcessPp(s, dt)
    case 3 => ProcessPv(s, dt)
    case 8 => ProcessCsp(s, dt)
    case 6 => ProcessHoming(s, dt)
    case -3 => ProcessJog(s, dt)
    case _ => s
  }

  // ---- Status ----

  predicate Moving(s: Servo) {
    Abs(s.axis.velocity) > EPS || s.pp.active || s.homing.active
  }

  predicate LimitActive(s: Servo) {
    s.limits.warning || !WithinLimits(s.od.config, s.axis.position)
  }

  function SetIf(w: bv16, b: bool, mask: bv16): bv16 {
    if b then w | mask else w
  }

  function StatuswordOf(s: Servo): bv16 {
    var w1 := SetIf(Statusword(s.state), s.window.reached, 0x0400);
    var w2 := SetIf(w1, s.pp.ack, 0x1000);
    var w3 := SetIf(w2, Moving(s), 0x0100);
    var w4 := SetIf(SetIf(w3, LimitActive(s), 0x0080), LimitActive(s), 0x0800);
    var w5 := SetIf(w4, s.homing.referenced, 0x8000);
    SetIf(w5, s.od.rx.mode == 6 && s.homing.error, 0x0008)
  }

  /** State machine first; leaving Operation Enabled stops the axis. */
  function ClockState(s: Servo): Servo {
    var s1 := s.(halt := Bit(s.od.rx.controlword, 0x0100), state := Next(s.state, s.od.rx.controlword));
    if Enabled(s) && !Enabled(s1) then StopAtCurrentPosition(s1) else s1
  }

  function Report(s: Servo, controlword: bv16): Servo {
    s.(od := s.od.(tx := s.od.tx.(statusword := StatuswordOf(s))), previousControlword := controlword)
  }

  function ProcessCycle(s: Servo, dt: real): Servo
    requires dt > 0.0 || !ModeTimed(ClockState(s))
  {
    Report(ProcessMode(ClockState(s), dt), s.od.rx.controlword)
  }

  /** An update without elapsed time works except where a mode divides by it. */
  predicate UpdateTimed(s: Servo) {
    ModeTimed(ClockState(ApplyCommands(s)))
  }

  function ModelUpdate(s: Servo, dt: real): Servo
    requires dt > 0.0 || !UpdateTimed(s)
  {
    ProcessCycle(ApplyCommands(s), dt)
  }

  // ---- Runs ----

  /** An accepted SDO write; TxPDO objects and unit exponents are read-only. */
  datatype SdoWrite =
    | Controlword(word: bv16)
    | Mode(mode: int)
    | Target(target: real)
    | ProfileVelocity(value: real)
    | TargetVelocity(value: real)
    | PositionLimits(first: real, second: real)
    | PositionWindow(value: real)
    | WindowTime(value: real)
    | MaxProfileVelocity(value: real)
    | NegativeLimit(value: real)
    | Acceleration(value: real)
    | Deceleration(value: real)
    | ResetCommand(command: int)
    | SaveCommand(command: int)
    | Unused

  function WriteSdo(s: Servo, w: SdoWrite): Servo {
    var rx, c := s.od.rx, s.od.config;
    match w
    case Controlword(word) => WriteRx(s, rx.(controlword := word))
    case Mode(mode) => WriteRx(s, rx.(mode := mode))
    case Target(target) => WriteRx(s, rx.(target := target))
    case ProfileVelocity(v) => WriteRx(s, rx.(profileVelocity := v))
    case TargetVelocity(v) => WriteRx(s, rx.(targetVelocity := v))
    case PositionLimits(first, second) =>
      WriteConfig(s, c.(firstPositionLimit := first, secondPositionLimit := second))
    case PositionWindow(v) => WriteConfig(s, c.(window := v))
    case WindowTime(v) => WriteConfig(s, c.(windowTime := v))
    case MaxProfileVelocity(v) => WriteConfig(s, c.(maxProfileVelocity := v))
    case NegativeLimit(v) => WriteConfig(s, c.(negativeVelocityLimit := v))
    case Acceleration(v) => WriteConfig(s, c.(acceleration := v))
    case Deceleration(v) => WriteConfig(s, c.(deceleration := v))
    case ResetCommand(command) => s.(od := s.od.(commands := s.od.commands.(reset := command)))
    case SaveCommand(command) => s.(od := s.od.(commands := s.od.commands.(save := command)))
    case Unused => s
  }

  function WriteConfig(s: Servo, c: Config): Servo {
    s.(od := s.od.(config := c))
  }

  /** What can happen to the servo: a PDO cycle or an SDO write. */
  datatype Event = Cycle(pdo: RxPdo, dt: real) | Sdo(write: SdoWrite)
  {
    /** Time passes between cycles; profile velocity is an unsigned object. */
    predicate Valid() {
      match this
      case Cycle(pdo, dt) => dt > 0.0 && pdo.profileVelocity >= 0.0
      case Sdo(ProfileVelocity(v)) => v >= 0.0
      case Sdo(_) => true
    }
  }

  function Step(s: Servo, e: Event): Servo
    requires e.Valid()
  {
    match e
    case Cycle(pdo, dt) => ModelUpdate(WriteRx(s, pdo), dt)
    case Sdo(w) => WriteSdo(s, w)
  }

  predicate AllValid(events: seq<Event>) {
    forall i :: 0 <= i < |events| ==> events[i].Valid()
  }

  function Run(s: Servo, events: seq<Event>): Servo
    requires AllValid(events)
    decreases |events|
  {
    if events == [] then s else Run(Step(s, events[0]), events[1..])
  }
}
