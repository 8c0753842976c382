/**
  One swerve module: its persistent steering state (offsets, previous
  heading, drive direction factor) updated in place by calibration and
  steering commands. The motor controllers and encoders are simulated by
  fields: the relative steering encoder position, the absolute encoder
  reading, the drive encoder position and the last values written to the two
  motors. The PID controller's `calculate` is an opaque function of
  (measurement, setpoint); every call to it is recorded in order.
 */
module SwerveModule {
  import opened AngleMath
  import Opt = SteeringOptimizer

  /** The inputs of one call to the steering PID controller. */
  datatype PidCall = PidCall(measurement: real, setpoint: real)

  /** Drive distance and steering heading, as one measurement snapshot. */
  datatype ModulePosition = ModulePosition(distance: real, angle: real)

  class SwerveMotor {
    /** Static mechanical offset of the absolute encoder. */
    const offset: real
    /** The angle unit of one full turn. */
    const fullRotation: real
    /** Relative encoder rotations per full turn of the wheel. */
    const encoderRatio: real
    /** The PID controller's output for (measurement, setpoint). */
    const pid: (real, real) -> real

    /** Correction taken from the absolute encoder at calibration. */
    var dynamicOffset: real
    /** Relative heading measured after the last steering command. */
    var prevAngle: real
    /** Drive direction sign, toggled each time the optimizer flips; no
        command reads it. */
    var directionFactor: real

    // Simulated hardware.
    var relEncoderPos: real
    var absReading: real
    var driveEncoderPos: real
    var steerOutput: real
    var driveOutput: real
    var pidCalls: seq<PidCall>

    /** The configuration constants are positive. */
    predicate Configured()
    {
      fullRotation > 0.0 && encoderRatio > 0.0
    }

    ghost predicate Valid()
      reads this`directionFactor, this`absReading
    {
      && Configured()
      && (directionFactor == 1.0 || directionFactor == -1.0)
      && 0.0 <= absReading < 1.0
    }

    /** A module fresh from power-up: no dynamic offset, previous heading 0,
        drive direction +1, with whatever the encoders read at that moment. */
    constructor (offset: real, fullRotation: real, encoderRatio: real, pid: (real, real) -> real,
                 relEncoderPos: real, absReading: real, driveEncoderPos: real)
      requires fullRotation > 0.0 && encoderRatio > 0.0
      requires 0.0 <= absReading < 1.0
      ensures Valid()
      ensures this.offset == offset && this.fullRotation == fullRotation
      ensures this.encoderRatio == encoderRatio && this.pid == pid
      ensures dynamicOffset == 0.0 && prevAngle == 0.0 && directionFactor == 1.0
      ensures this.relEncoderPos == relEncoderPos && this.absReading == absReading
      ensures this.driveEncoderPos == driveEncoderPos
      ensures steerOutput == 0.0 && driveOutput == 0.0 && pidCalls == []
    {
      this.offset := offset;
      this.fullRotation := fullRotation;
      this.encoderRatio := encoderRatio;
      this.pid := pid;
      dynamicOffset := 0.0;
      prevAngle := 0.0;
      directionFactor := 1.0;
      this.relEncoderPos := relEncoderPos;
      this.absReading := absReading;
      this.driveEncoderPos := driveEncoderPos;
      steerOutput := 0.0;
      driveOutput := 0.0;
      pidCalls := [];
    }

    /** The physical world between two commands: the wheel turns and drives,
        so the three encoders read new values. */
    method Sense(relPos: real, absPos: real, drivePos: real)
      requires Valid() && 0.0 <= absPos < 1.0
      modifies this`relEncoderPos, this`absReading, this`driveEncoderPos
      ensures Valid()
      ensures relEncoderPos == relPos && absReading == absPos && driveEncoderPos == drivePos
    {
      relEncoderPos, absReading, driveEncoderPos := relPos, absPos, drivePos;
    }

    /** The combined offset, reduced by Java's truncating `%`: it keeps the
        sign of offset + dynamicOffset. */
    function Offset(): (r: real)
      reads this`dynamicOffset
      requires Configured()
      ensures offset + dynamicOffset >= 0.0 ==> 0.0 <= r < fullRotation
      ensures offset + dynamicOffset < 0.0 ==> -fullRotation < r <= 0.0
      ensures Congruent(r, offset + dynamicOffset, fullRotation)
      ensures offset + dynamicOffset >= 0.0 ==> r == Modulo(offset + dynamicOffset, fullRotation)
    {
      JavaRemainderVsModulo(offset + dynamicOffset, fullRotation);
      JavaRemainder(offset + dynamicOffset, fullRotation)
    }

    /** The relative encoder position converted to the angle unit. */
    function SteeringPosition(): (r: real)
      reads this`relEncoderPos
      requires Configured()
      ensures r * encoderRatio == relEncoderPos * fullRotation
    {
      relEncoderPos / encoderRatio * fullRotation
    }

    /** The absolute encoder reading, a fraction of a turn. */
    function AbsoluteSteeringPosition(): (r: real)
      reads this`directionFactor, this`absReading
      requires Valid()
      ensures 0.0 <= r < 1.0
    {
      absReading
    }

    /** Drive encoder distance and steering heading. */
    function SwervePosition(): (p: ModulePosition)
      reads this`driveEncoderPos, this`relEncoderPos
      requires Configured()
      ensures p.distance == driveEncoderPos
      ensures p.angle * encoderRatio == relEncoderPos * fullRotation
    {
      ModulePosition(driveEncoderPos, SteeringPosition())
    }

    /** Re-zeroes the relative encoder and takes the dynamic offset from the
        absolute encoder; the steering state is left as it was. */
    method Calibrate()
      requires Valid()
      modifies this`relEncoderPos, this`dynamicOffset
      ensures Valid()
      ensures relEncoderPos == 0.0 && SteeringPosition() == 0.0
      ensures dynamicOffset == absReading * fullRotation
      ensures Offset() == JavaRemainder(offset + absReading * fullRotation, fullRotation)
      ensures prevAngle == old(prevAngle) && directionFactor == old(directionFactor)
      ensures pidCalls == old(pidCalls)
    {
      relEncoderPos := 0.0;
      dynamicOffset := AbsoluteSteeringPosition() * fullRotation;
    }

    /** One step of the steering PID controller; its history is the list of
        calls it has seen. */
    method Calculate(measurement: real, setpoint: real) returns (output: real)
      requires Valid()
      modifies this`pidCalls
      ensures Valid()
      ensures output == pid(measurement, setpoint)
      ensures pidCalls == old(pidCalls) + [PidCall(measurement, setpoint)]
    {
      pidCalls := pidCalls + [PidCall(measurement, setpoint)];
      output := pid(measurement, setpoint);
    }

    /** Drives the wheel towards the calibrated zero, bypassing the optimizer. */
    method ZeroPosition()
      requires Valid()
      modifies this`steerOutput, this`pidCalls
      ensures Valid()
      ensures pidCalls == old(pidCalls) + [PidCall(SteeringPosition(), Offset())]
      ensures steerOutput == pid(SteeringPosition(), Offset())
    {
      var output := Calculate(SteeringPosition(), Offset());
      steerOutput := output;
    }

    method StopSteering()
      requires Valid()
      modifies this`steerOutput
      ensures Valid() && steerOutput == 0.0
    {
      steerOutput := 0.0;
    }

    /** The shortest-rotation delta from previous to goal; toggles the drive
        direction when it steers to the reversed goal instead. */
    method ClosestAngle(previous: real, goal: real) returns (dir: real)
      requires Valid()
      modifies this`directionFactor
      ensures Valid()
      ensures dir == Opt.ClosestAngle(previous, goal, fullRotation).delta
      ensures directionFactor == Opt.Toggled(old(directionFactor), Opt.ClosestAngle(previous, goal, fullRotation))
    {
      dir := Modulo(goal, fullRotation) - Modulo(previous, fullRotation);
      if Abs(dir) > fullRotation / 2.0 {
        dir := -(Signum(dir) * fullRotation) + dir;
      }
      if Abs(dir) > fullRotation / 4.0 {
        dir := -Signum(dir) * (fullRotation / 2.0 - Abs(dir));
        directionFactor := directionFactor * -1.0;
      }
    }

    /** Commands the PID from the previous heading towards the optimized
        target for goalRotation plus the offset, then takes the measured
        relative heading (not the target) as the new previous heading. */
    method Steer(goalRotation: real)
      requires Valid()
      modifies this`directionFactor, this`steerOutput, this`pidCalls, this`prevAngle
      ensures Valid()
      ensures var s := Opt.ClosestAngle(old(prevAngle), goalRotation + old(Offset()), fullRotation);
        && pidCalls == old(pidCalls) + [PidCall(old(prevAngle), old(prevAngle) + s.delta)]
        && steerOutput == pid(old(prevAngle), old(prevAngle) + s.delta)
        && directionFactor == Opt.Toggled(old(directionFactor), s)
      ensures var setpoint := pidCalls[|pidCalls| - 1].setpoint;
        && Abs(setpoint - old(prevAngle)) <= fullRotation / 4.0
        && Congruent(setpoint, goalRotation + old(Offset()), fullRotation / 2.0)
      ensures prevAngle == SteeringPosition()
    {
      ghost var previous, goal := prevAngle, goalRotation + Offset();
      Opt.ClosestAngleReachesGoal(previous, goal, fullRotation);
      var delta := ClosestAngle(prevAngle, goalRotation + Offset());
      var goalAngle := prevAngle + delta;
      var output := Calculate(prevAngle, goalAngle);
      steerOutput := output;
      prevAngle := SteeringPosition();
    }

    /** Forwards the speed to the drive motor as it is; the direction factor
        is not applied. */
    method Drive(speed: real)
      requires Valid()
      modifies this`driveOutput
      ensures Valid() && driveOutput == speed
    {
      driveOutput := speed;
    }
  }
}
