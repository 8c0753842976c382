# Swerve module steering: a Dafny model

This project models the steering core of one swerve-drive wheel module, the
`SwerveMotor` class of the robot code. Each control cycle the module gets a
goal heading. It steers towards it by the shortest physical rotation and
never turns more than a quarter turn. When the short way is longer than that,
it steers by the supplement instead and toggles a private direction factor.
As written, that supplement is the mirror image of the reversed goal (see
Findings). The direction factor is set at construction and toggled on each
flip, but no command reads it, so the drive is never actually reversed.
It reconciles two angle sensors. The absolute encoder reads a fraction of a
turn. The relative encoder is re-zeroed at calibration, and its reading at
that moment is combined with a static mounting offset and a dynamic offset
taken from the absolute encoder.

The model has three modules:

- `AngleMath` (angle_math.dfy) covers exact real angle arithmetic. `Modulo` is
  the source's floored `modulo` helper. `JavaRemainder` is Java's truncating
  `%` on doubles, which the offset getter uses. `Congruent` says that two
  angles name the same heading modulo a given turn.
- `SteeringOptimizer` (steering.dfy) is `closestAngle` as a pure function. Its
  effect on the direction factor is returned as a `flipped` flag. It comes in
  two versions: the flip step as the source writes it, and as it is evidently
  meant (see Findings). Beside it are an independent reference definition of
  the shortest angular distance and the lemmas that connect the optimizer to
  that definition.
- `SwerveModule` (swerve_motor.dfy) is the module as a class. It has the
  source's state fields, and its methods update those fields in place. The
  motor controllers and encoders are simulated by fields. `relEncoderPos` is
  the relative steering encoder in motor rotations. `absReading` is the
  absolute encoder, a fraction of a turn in [0, 1). `driveEncoderPos` is the
  drive encoder. `steerOutput` and `driveOutput` are the last values written
  to the two motors. The method `Sense` stands for the physical world: the
  wheel moves between commands, so the encoders read new values. It is not a
  source operation. The PID controller's `calculate` is the opaque function
  field `pid` of (measurement, setpoint). The PID's internal history is
  represented by `pidCalls`, the list of the inputs it has been given.

The angle unit of one full turn (`FULL_ROTATION`) and the relative encoder
ratio (`RELATIVE_ENCODER_RATIO`) are defined in a constants file that is not
part of this model. Here they are constructor parameters that must be
positive. The static offset is a constructor parameter, as in the source. In
the source the PID controller is a field initialiser built from gain
constants (SwerveMotor.java:17), and the constructor takes only the two motor
ports and the offset. The model passes the PID in as a constructor parameter
instead, because its gains are not part of this model. The two motor ports
are not modelled.

Three facts about the code that the model keeps:
- The offset getter uses Java's `%`. Its result is negative when
  offset + dynamicOffset is negative, so it is not always in [0, FULL_ROTATION).
- `drive` forwards the speed unchanged. The direction factor is never applied
  to it.
- No operation reports an unavailable sensor. The getters read the hardware
  without any error path.

## Model

| member | source | states |
|---|---|---|
| `AngleMath.Modulo` | src/main/java/frc/robot/SwerveMotor.java:96-99 | the floored remainder lies in [0, b) for b > 0, also for negative a (in (b, 0] for b < 0), and differs from a by a whole multiple of b |
| `AngleMath.ModuloUnique` | src/main/java/frc/robot/SwerveMotor.java:96-99 | any r in [0, b) that differs from a by an integer multiple of b is Modulo(a, b) |
| `AngleMath.ModuloShift` | src/main/java/frc/robot/SwerveMotor.java:96-99 | shifting a by any integer multiple of b leaves Modulo(a, b) unchanged |
| `AngleMath.JavaRemainder` | src/main/java/frc/robot/SwerveMotor.java:104 | Java's `%` takes the sign of the dividend: in [0, abs(b)) for a >= 0, in (-abs(b), 0] for a < 0; it differs from a by a multiple of b |
| `AngleMath.JavaRemainderVsModulo` | src/main/java/frc/robot/SwerveMotor.java:103-105 | for b > 0, `%` equals Modulo when a >= 0; when a < 0 it is 0 or Modulo minus one turn; it always names the same heading as a |
| `SteeringOptimizer.RawDirection` | src/main/java/frc/robot/SwerveMotor.java:77 | the difference of the normalised headings lies strictly within one turn, and previous plus it is the goal heading |
| `SteeringOptimizer.WrapHalfTurn` | src/main/java/frc/robot/SwerveMotor.java:79-83 | after the wrap step abs(dir) <= F/2; dir is changed exactly when abs(dir) > F/2, and then by one whole turn |
| `SteeringOptimizer.ShortestDistance` | src/main/java/frc/robot/SwerveMotor.java:77-83 | reference definition of the short-way distance between two headings; lies in [0, F/2] |
| `SteeringOptimizer.WrappedIsShortest` | src/main/java/frc/robot/SwerveMotor.java:77-83 | the size of the wrapped direction is the shortest distance between the headings |
| `SteeringOptimizer.MinimalTravel` | src/main/java/frc/robot/SwerveMotor.java:85-90 | the least travel to the goal or the reversed goal: at most F/4, and no more than either of the two |
| `SteeringOptimizer.ClosestAngleAsWritten` | src/main/java/frc/robot/SwerveMotor.java:74-93 | the source's optimizer: it flips exactly when the shortest distance exceeds F/4, and abs(delta) is the minimal travel, so abs(delta) <= F/4 |
| `SteeringOptimizer.ClosestAngle` | src/main/java/frc/robot/SwerveMotor.java:74-93 | the corrected optimizer: the same flip condition and the same travel bound as the source |
| `SteeringOptimizer.ClosestAngleFromWrapped` | src/main/java/frc/robot/SwerveMotor.java:85-90 | it flips exactly when the post-wrap abs(dir) > F/4; a flip moves the wrapped direction half a turn back towards zero |
| `SteeringOptimizer.WrappedReachesGoal` | src/main/java/frc/robot/SwerveMotor.java:77-83 | previous plus the wrapped direction is the goal plus a whole number of turns |
| `SteeringOptimizer.ClosestAngleReachesGoal` | src/main/java/frc/robot/SwerveMotor.java:67-71 | previous + delta equals the goal modulo F/2; it equals the goal modulo F exactly when there was no flip, and the goal plus F/2 when there was one |
| `SteeringOptimizer.SameHeadingStaysPut` | src/main/java/frc/robot/SwerveMotor.java:77-92 | when previous and goal are the same heading modulo F, both optimizers return delta 0 and no flip |
| `SteeringOptimizer.AsWrittenMirrorsIntended` | src/main/java/frc/robot/SwerveMotor.java:88 | the source's flip step has the same flag and size as the intended one, with the opposite sign on a flip |
| `SteeringOptimizer.AsWrittenMissesGoal` | src/main/java/frc/robot/SwerveMotor.java:88 | with F = 360, from 0 to 200 the source returns -20 and flips, and 0 - 20 is neither 200 modulo 180 nor 380 modulo 360 |
| `SteeringOptimizer.ClosestAngleExamples` | src/main/java/frc/robot/SwerveMotor.java:77-92 | with F = 360: 0 to 200 gives 20 with a flip, 10 to 40 gives 30 without one (in both versions), and 0 to 0 gives 0 without one |
| `SteeringOptimizer.Toggled` | src/main/java/frc/robot/SwerveMotor.java:89 | the direction factor is negated on a flip and left alone otherwise |
| `SteeringOptimizer.TwoFlipsRestoreDirection` | src/main/java/frc/robot/SwerveMotor.java:86-90 | 0 to 200 flips; from the heading reached, 20, a further 200 to 220 flips again; the two flips restore the direction factor |
| `SwerveModule.SwerveMotor.constructor` | src/main/java/frc/robot/SwerveMotor.java:17-37 | a new module has dynamicOffset 0, prevAngle 0, directionFactor 1, the given static offset and no PID history |
| `SwerveModule.SwerveMotor.Offset` | src/main/java/frc/robot/SwerveMotor.java:103-105 | the Java remainder of offset + dynamicOffset: in [0, F) when the sum is non-negative (and then equal to Modulo), in (-F, 0] when it is negative, always the same heading as the sum |
| `SwerveModule.SwerveMotor.SteeringPosition` | src/main/java/frc/robot/SwerveMotor.java:106-108 | the relative heading is the encoder position scaled by F / RELATIVE_ENCODER_RATIO |
| `SwerveModule.SwerveMotor.AbsoluteSteeringPosition` | src/main/java/frc/robot/SwerveMotor.java:109-111 | the absolute reading is a fraction of a turn in [0, 1) |
| `SwerveModule.SwerveMotor.SwervePosition` | src/main/java/frc/robot/SwerveMotor.java:113-116 | the position snapshot pairs the drive encoder distance with the relative heading |
| `SwerveModule.SwerveMotor.Calibrate` | src/main/java/frc/robot/SwerveMotor.java:39-42 | the relative encoder reads 0, so the heading reads 0; dynamicOffset = absolute reading * F, so Offset() is the Java remainder of offset + reading * F; prevAngle, directionFactor and the PID history are unchanged |
| `SwerveModule.SwerveMotor.Calculate` | src/main/java/frc/robot/SwerveMotor.java:17 | a PID step returns pid(measurement, setpoint) and appends those inputs to its history |
| `SwerveModule.SwerveMotor.ZeroPosition` | src/main/java/frc/robot/SwerveMotor.java:44-46 | commands the PID with the measured heading and the offset as setpoint, bypassing the optimizer |
| `SwerveModule.SwerveMotor.StopSteering` | src/main/java/frc/robot/SwerveMotor.java:48-50 | the steering motor is set to 0; the PID history is untouched |
| `SwerveModule.SwerveMotor.ClosestAngle` | src/main/java/frc/robot/SwerveMotor.java:74-93 | returns the optimizer's delta and toggles directionFactor exactly on a flip, keeping it in {+1, -1} |
| `SwerveModule.SwerveMotor.Steer` | src/main/java/frc/robot/SwerveMotor.java:52-57 | commands the PID with measurement = old prevAngle and setpoint = old prevAngle + the delta for goal + Offset(). That setpoint is within F/4 of prevAngle and is the goal + offset modulo F/2. prevAngle then becomes the measured heading, not the setpoint |
| `SwerveModule.SwerveMotor.Drive` | src/main/java/frc/robot/SwerveMotor.java:59-62 | the drive motor gets the speed unchanged; directionFactor is not applied |

## Findings

| source | as written | input that shows it | evidently intended | confidence | as-written member | corrected member |
|---|---|---|---|---|---|---|
| src/main/java/frc/robot/SwerveMotor.java:88 | the flip step sets `dir = signum(dir) * (F/2 - abs(dir))`, which keeps the sign of `dir` | F = 360, previous 0, goal 200: delta -20 with a flip, so the wheel faces 340; it would drive reversed along 160, not 200, if the direction factor were applied (`drive` never applies it, so it drives forward along 340) | turn the other way, `-signum(dir) * (F/2 - abs(dir))`: delta 20, and the reversed wheel drives along 200, as the comment at lines 70-71 says | high; not executed | `SteeringOptimizer.AsWrittenMissesGoal` | `SteeringOptimizer.ClosestAngleReachesGoal` |

`SteeringOptimizer.ClosestAngleAsWritten` is the source's flip step.
`SteeringOptimizer.ClosestAngle` is the corrected one, and the
`SwerveMotor` class uses it. The two agree whenever there is no flip
(`AsWrittenMirrorsIntended`).

## Left out

- SwerveModule.SwerveMotor.ClosestAngle: uses the corrected flip sign from Findings, not the sign as written at line 88; the step as written is `SteeringOptimizer.ClosestAngleAsWritten`.
- SwerveModule.SwerveMotor.Steer: its setpoint is built from the corrected optimizer for the same reason.
- Floating point: angles are exact reals. IEEE-754 rounding, NaN and the signed zero are not modelled. A full rotation of 0, which makes Java's results NaN, is excluded by requiring it to be positive.
- The WPILib PID controller: its gains, integral and derivative accumulation and output clamp are not modelled. `calculate` is an opaque function of (measurement, setpoint), and its inputs are recorded in order.
- The motor controllers and encoders (CAN bus, SPARK MAX drivers): replaced by simulated fields. There is no sensor-unavailable error, because the source has none.
- `Rotation2d` and `SwerveModulePosition`: the position snapshot is a plain pair of the drive distance and the heading. The source passes the heading in the `FULL_ROTATION` unit to a constructor that expects radians. The model keeps the raw value.
- The type of `FULL_ROTATION`: the model assumes a floating-point `FULL_ROTATION` and divides it by 2 and by 4 as reals (`full / 2.0`, `full / 4.0`). If the constant were an `int`, `FULL_ROTATION/2` and `FULL_ROTATION/4` at SwerveMotor.java:80, 86 and 88 would be integer divisions. With a value as small as 2, `FULL_ROTATION/4` would be 0 and every non-zero move would flip. That case is not modelled.
- The constants file (`FULL_ROTATION`, `RELATIVE_ENCODER_RATIO`, PID gains) is not part of this model. The values are constructor parameters.
- src/main/java/frc/robot/TeleopController.java: joystick mapping, floating-point trigonometry and calls into a drivetrain class are upstream UI code outside the module core.
- src/main/java/frc/robot/vision/VisionController.java: camera, NetworkTables and pose-estimation I/O are outside the module core.
- Concurrency: the source is single-threaded and cycle-driven, and so is the model.
