/** The F-KR virtual servo in the form of the program: an object whose methods
    update position, velocity, flags and the object dictionary in place. Every
    method is proved to follow its function in ServoSpec. */
module ServoObject {
  import opened Reals
  import opened Words
  import opened StateMachine
  import opened ServoSpec
  import opened Kinematics
  import Motion

  class VirtualCiA402Servo {
    const preset: Config
    const sm: CiA402StateMachine
    var cycleTime: real
    var gain: real
    var od: Od
    var actual: Axis
    var pp: Pp
    var homing: Homing
    var window: Window
    var limits: Limits
    var last: Last
    var haltActive: bool
    var previousControlword: bv16

    constructor (preset: Config, cycleTime: real)
      ensures View() == Initial(preset) && this.cycleTime == cycleTime && fresh(sm)
    {
      this.preset := preset;
      this.cycleTime := cycleTime;
      sm := new CiA402StateMachine();
      gain := 5.0;
      od := Od(RX_DEFAULT, TX_DEFAULT, preset, Commands(0, 0, 0, 0, 0));
      actual := Axis(0.0, 0.0);
      pp := Pp(false, 0.0, false);
      homing := Homing(false, 0, false, false);
      window := Window(false, 0);
      limits := Limits(false, false);
      last := Last(8, 0.0, 0, 0);
      haltActive, previousControlword := false, 0;
    }

    /** The value of the object. */
    function View(): Servo
      reads this, sm
    {
      Servo(preset, od, sm.state, actual, pp, homing, window, limits, last,
            haltActive, previousControlword, gain)
    }

    method ModelUpdate()
      requires cycleTime > 0.0 || !UpdateTimed(View())
      modifies this, sm
      ensures cycleTime == old(cycleTime)
      ensures View() == ServoSpec.ModelUpdate(old(View()), cycleTime)
    {
      ApplyOdCommands();
      ProcessCycle();
    }

    // ---- Object dictionary commands ----

    method ApplyOdCommands()
      modifies this
      ensures cycleTime == old(cycleTime)
      ensures View() == ApplyCommands(old(View()))
    {
      var resetCommand := od.commands.reset;
      if resetCommand != last.reset && resetCommand == 1 {
        ApplyDeviceReset();
      }
      last := last.(reset := resetCommand);
      assert View() == ResetStep(old(View()));

      var saveCommand := od.commands.save;
      if saveCommand != last.save && saveCommand == 1 {
        od := od.(commands := od.commands.(saveStatus := 0, saveReturnCode := 0, saveReturnValue := 1));
      }
      last := last.(save := saveCommand);
      assert View() == SaveStep(ResetStep(old(View())));

      var requestedMode, requestedTarget := od.rx.mode, od.rx.target;
      if requestedMode != last.mode {
        ChangeMode(requestedMode, last.mode);
      }
      if requestedTarget != last.target {
        ChangeTarget(requestedTarget, last.target);
      }
    }

    method ApplyDeviceReset()
      modifies this
      ensures cycleTime == old(cycleTime)
      ensures View() == DeviceReset(old(View()))
    {
      var currentPosition := od.tx.position;
      od := od.(config := preset);
      od := od.(rx := RX_DEFAULT, tx := TX_DEFAULT);
      od := od.(rx := od.rx.(target := currentPosition));
      od := od.(tx := od.tx.(position := currentPosition, statusword := 0x0027));
      od := od.(tx := od.tx.(modeDisplay := od.rx.mode));
      last := last.(mode := od.rx.mode, target := od.rx.target);
    }

    method ChangeMode(mode: int, previousMode: int)
      modifies this
      ensures cycleTime == old(cycleTime)
      ensures View() == SetMode(old(View()), mode, previousMode)
    {
      if mode != previousMode {
        Stop();
        if mode != 6 {
          homing := homing.(active := false, error := false);
        }
      }
      od := od.(rx := od.rx.(mode := mode), tx := od.tx.(modeDisplay := mode));
      last := last.(mode := mode);
    }

    method ChangeTarget(position: real, previousTarget: real)
      modifies this
      ensures cycleTime == old(cycleTime)
      ensures View() == SetTarget(old(View()), position, previousTarget)
    {
      if (od.rx.mode == 1 || od.rx.mode == 8) && !homing.referenced {
        od := od.(rx := od.rx.(target := previousTarget));
        last := last.(target := previousTarget);
        return;
      }
      var lower, upper := SoftwarePositionLimits();
      if !(lower <= position <= upper) {
        limits := Limits(true, true);
        Stop();
        window := window.(reached := false);
        return;
      }
      limits := limits.(rejected := false);
      if !(actual.position < lower || actual.position > upper) {
        limits := limits.(warning := false);
      }
      if position != previousTarget {
        window := Window(false, 0);
      }
      od := od.(rx := od.rx.(target := position));
      last := last.(target := position);
    }

    method SoftwarePositionLimits() returns (lower: real, upper: real)
      ensures lower == LowerLimit(od.config) && upper == UpperLimit(od.config) && lower <= upper
    {
      lower, upper := od.config.firstPositionLimit, od.config.secondPositionLimit;
      if lower > upper {
        lower, upper := upper, lower;
      }
    }

    method Stop()
      modifies this
      ensures cycleTime == old(cycleTime)
      ensures View() == StopAtCurrentPosition(old(View()))
    {
      actual := actual.(velocity := 0.0);
      pp := pp.(active := false, target := actual.position);
      od := od.(rx := od.rx.(target := actual.position));
      last := last.(target := actual.position);
      WriteActualFeedback();
      window := Window(true, 0);
    }

    method WriteActualFeedback()
      modifies this`od
      ensures View() == WriteFeedback(old(View()))
    {
      od := od.(tx := od.tx.(position := actual.position));
      od := od.(tx := od.tx.(velocity := actual.velocity));
    }

    method UpdateWindow()
      requires cycleTime > 0.0
      modifies this`window
      ensures View() == UpdateTargetReached(old(View()), cycleTime)
    {
      if Abs(od.rx.target - od.tx.position) <= od.config.window {
        window := window.(counter := window.counter + 1);
      } else {
        window := Window(false, 0);
      }
      var requiredCount := RequiredCount(od.config.windowTime, cycleTime);
      if window.counter >= requiredCount {
        window := window.(reached := true);
      }
    }

    // ---- Main cycle ----

    method ProcessCycle()
      requires cycleTime > 0.0 || !ModeTimed(ClockState(View()))
      modifies this, sm
      ensures cycleTime == old(cycleTime)
      ensures View() == ServoSpec.ProcessCycle(old(View()), cycleTime)
    {
      var controlword := od.rx.controlword;
      haltActive := Bit(controlword, 0x0100);
      var before := sm.GetStatusword();
      sm.Process(controlword);
      var after := sm.GetStatusword();
      if before == 0x0027 && after != 0x0027 {
        Stop();
      }
      ghost var clocked := View();
      assert clocked == ClockState(old(View()));
      RunMode();
      var statusword := ComposeStatusword();
      od := od.(tx := od.tx.(statusword := statusword));
      previousControlword := controlword;
    }

    method RunMode()
      requires cycleTime > 0.0 || !ModeTimed(View())
      modifies this
      ensures cycleTime == old(cycleTime)
      ensures View() == ProcessMode(old(View()), cycleTime)
    {
      var mode := od.rx.mode;
      if mode == 1 {
        ProcessProfilePosition();
      } else if mode == 3 {
        ProcessProfileVelocity();
      } else if mode == 8 {
        ProcessCyclicPosition();
      } else if mode == 6 {
        ProcessHomingMode();
      } else if mode == -3 {
        ProcessJogMode();
      }
    }

    method ComposeStatusword() returns (statusword: bv16)
      ensures statusword == StatuswordOf(View())
    {
      hide SetIf;
      statusword := sm.GetStatusword();
      statusword := SetIf(statusword, window.reached, 0x0400);
      statusword := SetIf(statusword, pp.ack, 0x1000);
      var moving := Abs(actual.velocity) > EPS || pp.active || homing.active;
      statusword := SetIf(statusword, moving, 0x0100);
      var lower, upper := SoftwarePositionLimits();
      var limited := limits.warning || actual.position < lower || actual.position > upper;
      statusword := SetIf(statusword, limited, 0x0080);
      statusword := SetIf(statusword, limited, 0x0800);
      statusword := SetIf(statusword, homing.referenced, 0x8000);
      statusword := SetIf(statusword, od.rx.mode == 6 && homing.error, 0x0008);
    }

    method ProcessHomingMode()
      requires cycleTime > 0.0 || !HomingTimed(View())
      modifies this
      ensures cycleTime == old(cycleTime)
      ensures View() == ProcessHoming(old(View()), cycleTime)
    {
      if sm.state != OperationEnabled {
        return;
      }
      if Bit(od.rx.controlword, 0x0010) && !Bit(previousControlword, 0x0010) {
        homing := Homing(true, HomingCycles(cycleTime), false, false);
        actual := actual.(velocity := 0.0);
        WriteActualFeedback();
        window := window.(reached := false);
      }
      if !homing.active {
        return;
      }
      homing := homing.(counter := homing.counter - 1);
      if homing.counter > 0 {
        return;
      }
      actual := Axis(0.0, 0.0);
      od := od.(rx := od.rx.(target := actual.position));
      WriteActualFeedback();
      window := window.(reached := true);
      homing := homing.(active := false, referenced := true);
    }

    /** Velocity towards a target, then one step of the position. */
    method MoveAxis(targetVelocity: real, acceleration: real)
      modifies this`actual
      ensures actual == Integrate(od.config, old(actual), targetVelocity, acceleration, cycleTime)
    {
      var v := MoveTowards(actual.velocity, targetVelocity,
                           VelocityDelta(od.config, acceleration, cycleTime));
      actual := Axis(actual.position + VelocityRate(od.config, v) * cycleTime, v);
    }

    /** The ramp alone; the callers write the feedback. */
    method DecelerateToStop()
      modifies this`actual
      ensures actual == Integrate(od.config, old(actual), 0.0, od.config.deceleration, cycleTime)
    {
      MoveAxis(0.0, od.config.deceleration);
    }

    method ProcessProfilePosition()
      requires cycleTime > 0.0 || !PpTimed(View())
      modifies this
      ensures cycleTime == old(cycleTime)
      ensures View() == ProcessPp(old(View()), cycleTime)
    {
      if sm.state != OperationEnabled {
        return;
      }
      if haltActive {
        pp := pp.(active := false, ack := false);
        DecelerateToStop();
        WriteActualFeedback();
        window := window.(reached := Abs(actual.velocity) <= EPS);
        return;
      }
      if !homing.referenced {
        pp := pp.(active := false, ack := false);
        window := window.(reached := false);
        DecelerateToStop();
        WriteActualFeedback();
        return;
      }
      if Bit(od.rx.controlword, 0x0010) && !Bit(previousControlword, 0x0010) {
        if limits.rejected {
          pp := pp.(active := false, ack := false);
          DecelerateToStop();
          WriteActualFeedback();
          return;
        } else {
          pp := pp.(active := true, target := od.rx.target);
        }
        window := Window(false, 0);
      }
      pp := pp.(ack := Bit(od.rx.controlword, 0x0010));
      if !pp.active {
        DecelerateToStop();
        WriteActualFeedback();
        UpdateWindow();
        return;
      }
      RunProfile();
      UpdateWindow();
    }

    /** The positioning profile of an active move. */
    method RunProfile()
      requires pp.active
      modifies this`actual, this`pp, this`od
      ensures View() == AdvanceProfile(old(View()), cycleTime)
    {
      hide VelocityDelta, StoppingDistance, Reaches, Integrate;
      var c, target, dt := od.config, pp.target, cycleTime;
      var maxVelocity := SideLimit(target);
      var error := target - actual.position;
      var distance := Abs(error);
      if distance <= c.window && Abs(actual.velocity) <= Max(VelocityDelta(c, c.deceleration, dt), EPS) {
        actual := Axis(target, 0.0);
        pp := pp.(active := false);
        WriteActualFeedback();
        return;
      }

      var direction := if error >= 0.0 then 1.0 else -1.0;
      var stoppingDistance := StoppingDistance(c, actual.velocity, error >= 0.0);
      var desiredVelocity, limit := 0.0, c.deceleration;
      if !(actual.velocity * direction < 0.0) && distance > stoppingDistance {
        desiredVelocity, limit := direction * maxVelocity, c.acceleration;
      }

      var before := actual;
      MoveAxis(desiredVelocity, limit);
      assert actual == Integrate(c, before, desiredVelocity, limit, dt);
      if Reaches(error, target - actual.position) {
        actual := Axis(target, 0.0);
        pp := pp.(active := false);
      }
      WriteActualFeedback();
    }

    /** The configured velocity on the side of a target. */
    method SideLimit(target: real) returns (maxVelocity: real)
      ensures maxVelocity == SideVelocity(od.config, od.rx.profileVelocity, target, actual.position)
    {
      var maxProfile := od.config.maxProfileVelocity;
      var negativeLimit := Abs(od.config.negativeVelocityLimit * 1000.0);
      if target < actual.position && negativeLimit > 0.0 {
        maxProfile := negativeLimit;
      }
      maxVelocity := od.rx.profileVelocity;
      if maxProfile > 0.0 && maxVelocity > maxProfile {
        maxVelocity := maxProfile;
      }
    }

    /** The ramp for a velocity command. */
    method RampFor(targetVelocity: real) returns (limit: real)
      ensures limit == Ramp(od.config, targetVelocity, actual.velocity)
    {
      limit := od.config.deceleration;
      if Abs(targetVelocity) > Abs(actual.velocity) {
        limit := od.config.acceleration;
      }
    }

    method ProcessProfileVelocity()
      modifies this
      ensures cycleTime == old(cycleTime)
      ensures View() == ProcessPv(old(View()), cycleTime)
    {
      if sm.state != OperationEnabled {
        return;
      }
      var targetVelocity := if haltActive then 0.0 else od.rx.targetVelocity;
      var positiveLimit := od.config.maxProfileVelocity;
      var negativeLimit := Abs(od.config.negativeVelocityLimit * 1000.0);
      if targetVelocity >= 0.0 && positiveLimit > 0.0 {
        targetVelocity := Min(targetVelocity, positiveLimit);
      } else if targetVelocity < 0.0 && negativeLimit > 0.0 {
        targetVelocity := Max(targetVelocity, -negativeLimit);
      }
      assert targetVelocity == PvTarget(old(View()));
      var limit := RampFor(targetVelocity);
      MoveAxis(targetVelocity, limit);
      WriteActualFeedback();
      var delta := VelocityDelta(od.config, limit, cycleTime);
      window := window.(reached := Abs(actual.velocity - targetVelocity) <= Max(delta, EPS));
    }

    method ProcessJogMode()
      modifies this
      ensures cycleTime == old(cycleTime)
      ensures View() == ProcessJog(old(View()), cycleTime)
    {
      if sm.state != OperationEnabled {
        return;
      }
      var targetVelocity := JogDemand();
      var limit := RampFor(targetVelocity);
      MoveAxis(targetVelocity, limit);
      WriteActualFeedback();
      window := window.(reached := Abs(actual.velocity) <= EPS);
    }

    /** The jog velocity asked for, cut off at the software limits. */
    method JogDemand() returns (targetVelocity: real)
      ensures targetVelocity == JogTarget(od.config, actual.position, JogCommand(View()))
    {
      var positive, negative := Bit(od.rx.controlword, 0x0010), Bit(od.rx.controlword, 0x0020);
      targetVelocity := 0.0;
      if positive != negative && !haltActive {
        targetVelocity := JogVelocity(od);
        if !positive {
          targetVelocity := -targetVelocity;
        }
      }
      if Abs(targetVelocity) <= SCALE_FLOOR {
        return 0.0;
      }
      var lower, upper := SoftwarePositionLimits();
      if targetVelocity > 0.0 && actual.position >= upper {
        return 0.0;
      }
      if targetVelocity < 0.0 && actual.position <= lower {
        return 0.0;
      }
    }

    /** The position loop is in charge of the velocity. */
    static predicate LoopRuns(s: Servo, dt: real) {
      && Enabled(s) && !s.halt && s.homing.referenced && dt > 0.0
      && s.od.config.Valid() && s.gain > 0.0 && s.od.rx.profileVelocity >= 0.0
    }

    /** The velocity goes after the one towards the target, and the position follows it. */
    method ProcessCyclicPosition()
      requires cycleTime > 0.0 || !CspTimed(View())
      modifies this
      ensures cycleTime == old(cycleTime)
      ensures View() == ProcessCsp(old(View()), cycleTime)
      ensures LoopRuns(old(View()), cycleTime) ==>
                var a, wanted := old(actual), Motion.Wanted(od.config, gain, old(actual.position), od.rx);
                && Motion.Pursues(a.velocity, wanted, Motion.Reach(od.config, a.velocity, wanted, cycleTime),
                                  actual.velocity)
                && actual.position == a.position + Travel(Kv(od.config), actual.velocity, cycleTime)
    {
      hide CspMove, VelocityDelta, VelocityRate, InPosition, RequiredCount, CspDemand, SideVelocity;
      hide Motion.Wanted, Motion.Pursues, Motion.Reach, Travel, Kv;
      ghost var s := View();
      if LoopRuns(s, cycleTime) {
        Motion.LoopPursues(s, cycleTime);
      }
      if sm.state != OperationEnabled {
        return;
      }
      if haltActive {
        DecelerateToStop();
        WriteActualFeedback();
        window := window.(reached := Abs(actual.velocity) <= EPS);
        return;
      }
      if !homing.referenced {
        window := window.(reached := false);
        DecelerateToStop();
        WriteActualFeedback();
        return;
      }
      var maxVelocity := SideLimit(od.rx.target);
      var demand := LoopDemand();
      FollowDemand(demand, maxVelocity);
      WriteActualFeedback();
      UpdateWindow();
    }

    method LoopDemand() returns (demand: real)
      ensures demand == CspDemand(View())
    {
      demand := RateVelocity(od.config, gain * (od.rx.target - actual.position));
    }

    /** The position loop of the cyclic synchronous mode. */
    method FollowDemand(demand: real, maxVelocity: real)
      modifies this`actual
      ensures actual == CspMove(od.config, old(actual), demand, maxVelocity, cycleTime)
    {
      hide VelocityDelta, VelocityRate;
      var desired := Max(Min(demand, maxVelocity), -maxVelocity);
      var limit := RampFor(desired);
      var maxChange := VelocityDelta(od.config, limit, cycleTime);
      var change := Max(Min(desired - actual.velocity, maxChange), -maxChange);
      var v := actual.velocity + change;
      actual := Axis(actual.position + VelocityRate(od.config, v) * cycleTime, v);
    }
  }
}
