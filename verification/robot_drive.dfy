/**
 `MotorController`: the four wheels of the robot.

 Motor 1 is left front, motor 2 right front, motor 3 left back and motor 4
 right back. Whole-robot moves apply one motor command to all four motors;
 turns drive the left pair (motors 1 and 3) and the right pair (motors 2 and 4)
 in opposite directions at the same speed.
 */
module RobotDrive {
  import opened Motors

  datatype Position = Motor1 | Motor2 | Motor3 | Motor4

  datatype Side = Left | Right

  datatype Controller = Controller(m1: Motor, m2: Motor, m3: Motor, m4: Motor)

  /** The motor at a position. */
  function At(c: Controller, p: Position): Motor
  {
    match p
    case Motor1 => c.m1
    case Motor2 => c.m2
    case Motor3 => c.m3
    case Motor4 => c.m4
  }

  /** The side of the robot a wheel is on. */
  function SideOf(p: Position): Side
  {
    match p
    case Motor1 => Left
    case Motor3 => Left
    case Motor2 => Right
    case Motor4 => Right
  }

  /** The front motor of a `MotorPair`. */
  function Front(s: Side): (p: Position)
    ensures SideOf(p) == s
  {
    match s
    case Left => Motor1
    case Right => Motor2
  }

  /** The back motor of a `MotorPair`. */
  function Back(s: Side): (p: Position)
    ensures SideOf(p) == s && p != Front(s)
  {
    match s
    case Left => Motor3
    case Right => Motor4
  }

  /** Each pair has two motors and every motor is in exactly the pair of its side. */
  lemma PairsPartitionMotors(p: Position)
    ensures p == Front(SideOf(p)) || p == Back(SideOf(p))
    ensures p != Front(if SideOf(p) == Left then Right else Left)
    ensures p != Back(if SideOf(p) == Left then Right else Left)
  {
  }

  /** The flags the constructor gives the four motors. */
  predicate Configured(c: Controller)
  {
    && c.m1.pwmCapable && !c.m1.inverted
    && c.m2.pwmCapable && c.m2.inverted
    && !c.m3.pwmCapable && c.m3.inverted
    && !c.m4.pwmCapable && !c.m4.inverted
  }

  /** The constructor: front motors PWM-capable, motors 2 and 3 inverted, all pins low. */
  function NewController(): (c: Controller)
    ensures Configured(c)
    ensures forall p :: Observe(At(c, p)) == Stopped
  {
    Controller(NewMotor(true, false), NewMotor(true, true), NewMotor(false, true), NewMotor(false, false))
  }

  /** Every motor of `c1` has the flags of the motor at the same position in `c2`. */
  predicate SameWiring(c1: Controller, c2: Controller)
  {
    forall p :: SameConfig(At(c1, p), At(c2, p))
  }

  /** `applyToAllMotors(operation)`: the operation on each of the four motors. */
  function ApplyToAll(c: Controller, op: Motor -> Motor): (r: Controller)
    ensures forall p :: At(r, p) == op(At(c, p))
  {
    Controller(op(c.m1), op(c.m2), op(c.m3), op(c.m4))
  }

  /** Replaces the motor at one position. */
  function Put(c: Controller, p: Position, m: Motor): (r: Controller)
    ensures At(r, p) == m
    ensures forall q | q != p :: At(r, q) == At(c, q)
  {
    match p
    case Motor1 => c.(m1 := m)
    case Motor2 => c.(m2 := m)
    case Motor3 => c.(m3 := m)
    case Motor4 => c.(m4 := m)
  }

  /** `MotorPair::forward`: front then back motor of one side forward; the other side untouched. */
  function PairForward(c: Controller, side: Side, speed: Speed): (r: Controller)
    ensures forall p :: At(r, p) == if SideOf(p) == side then Motors.Forward(At(c, p), speed) else At(c, p)
  {
    var c' := Put(c, Front(side), Motors.Forward(At(c, Front(side)), speed));
    Put(c', Back(side), Motors.Forward(At(c', Back(side)), speed))
  }

  /** `MotorPair::reverse`: front then back motor of one side in reverse; the other side untouched. */
  function PairReverse(c: Controller, side: Side, speed: Speed): (r: Controller)
    ensures forall p :: At(r, p) == if SideOf(p) == side then Motors.Reverse(At(c, p), speed) else At(c, p)
  {
    var c' := Put(c, Front(side), Motors.Reverse(At(c, Front(side)), speed));
    Put(c', Back(side), Motors.Reverse(At(c', Back(side)), speed))
  }

  /** `begin()`: every motor begun, so every motor stopped. */
  function Begin(c: Controller): (r: Controller)
    ensures SameWiring(r, c)
    ensures forall p :: Observe(At(r, p)) == Stopped
  {
    ApplyToAll(c, Motors.Begin)
  }

  /** `forward(speed)`: all four motors forward at the speed each can deliver. */
  function Forward(c: Controller, speed: Speed): (r: Controller)
    ensures SameWiring(r, c)
    ensures forall p :: Observe(At(r, p)) == Forwards(EffectiveSpeed(At(c, p).pwmCapable, speed))
  {
    ApplyToAll(c, m => Motors.Forward(m, speed))
  }

  /** `reverse(speed)`: all four motors in reverse at the speed each can deliver. */
  function Reverse(c: Controller, speed: Speed): (r: Controller)
    ensures SameWiring(r, c)
    ensures forall p :: Observe(At(r, p)) == Backwards(EffectiveSpeed(At(c, p).pwmCapable, speed))
  {
    ApplyToAll(c, m => Motors.Reverse(m, speed))
  }

  /** `stop()`: every pin of every motor low. */
  function Stop(c: Controller): (r: Controller)
    ensures SameWiring(r, c)
    ensures forall p :: At(r, p).a == Low && At(r, p).b == Low
  {
    ApplyToAll(c, Motors.Stop)
  }

  /** `turnLeft(speed)`: the left pair in reverse, the right pair forward, same speed. */
  function TurnLeft(c: Controller, speed: Speed): (r: Controller)
    ensures SameWiring(r, c)
    ensures forall p | SideOf(p) == Left :: Observe(At(r, p)) == Backwards(EffectiveSpeed(At(c, p).pwmCapable, speed))
    ensures forall p | SideOf(p) == Right :: Observe(At(r, p)) == Forwards(EffectiveSpeed(At(c, p).pwmCapable, speed))
  {
    PairForward(PairReverse(c, Left, speed), Right, speed)
  }

  /** `turnRight(speed)`: the left pair forward, the right pair in reverse, same speed. */
  function TurnRight(c: Controller, speed: Speed): (r: Controller)
    ensures SameWiring(r, c)
    ensures forall p | SideOf(p) == Left :: Observe(At(r, p)) == Forwards(EffectiveSpeed(At(c, p).pwmCapable, speed))
    ensures forall p | SideOf(p) == Right :: Observe(At(r, p)) == Backwards(EffectiveSpeed(At(c, p).pwmCapable, speed))
  {
    PairReverse(PairForward(c, Left, speed), Right, speed)
  }

  /** The same wheel turning the other way at the same speed. */
  function Opposite(m: Motion): Motion
  {
    match m
    case Forwards(s) => Backwards(s)
    case Backwards(s) => Forwards(s)
    case _ => m
  }

  /** `turnRight` is the mirror of `turnLeft`: every wheel turns the other way at the same speed. */
  lemma TurnsAreMirrors(c: Controller, speed: Speed)
    ensures forall p :: Observe(At(TurnRight(c, speed), p)) == Opposite(Observe(At(TurnLeft(c, speed), p)))
  {
  }

  /**
   With the constructor's flags and a speed below full, the front motors get a
   PWM duty on their active pin while the back motors are switched fully high;
   inverted motors 2 and 3 drive pin B when going forward.
   */
  lemma ConfiguredForwardPins(c: Controller, speed: Speed)
    requires Configured(c) && speed < FullSpeed
    ensures var r := Forward(c, speed);
      && r.m1.a == Pwm(speed) && r.m1.b == Low
      && r.m2.a == Low && r.m2.b == Pwm(speed)
      && r.m3.a == Low && r.m3.b == High
      && r.m4.a == High && r.m4.b == Low
  {
  }

  /** Two controllers that agree motor by motor are the same controller. */
  lemma ControllerExtensionality(c1: Controller, c2: Controller)
    requires forall p :: At(c1, p) == At(c2, p)
    ensures c1 == c2
  {
    assert At(c1, Motor1) == At(c2, Motor1) && At(c1, Motor2) == At(c2, Motor2);
    assert At(c1, Motor3) == At(c2, Motor3) && At(c1, Motor4) == At(c2, Motor4);
  }

  /**
   Every manoeuvre sets the pins from the flags and the speed alone, not from
   what the motors were doing; so repeating a manoeuvre changes nothing.
   */
  lemma ManoeuvresIgnorePriorState(c1: Controller, c2: Controller, speed: Speed)
    requires SameWiring(c1, c2)
    ensures Forward(c1, speed) == Forward(c2, speed)
    ensures Reverse(c1, speed) == Reverse(c2, speed)
    ensures TurnLeft(c1, speed) == TurnLeft(c2, speed)
    ensures TurnRight(c1, speed) == TurnRight(c2, speed)
    ensures Stop(c1) == Stop(c2)
  {
    forall p ensures At(Forward(c1, speed), p) == At(Forward(c2, speed), p) {
      CommandsIgnorePriorState(At(c1, p), At(c2, p), speed);
    }
    ControllerExtensionality(Forward(c1, speed), Forward(c2, speed));
    forall p ensures At(Reverse(c1, speed), p) == At(Reverse(c2, speed), p) {
      CommandsIgnorePriorState(At(c1, p), At(c2, p), speed);
    }
    ControllerExtensionality(Reverse(c1, speed), Reverse(c2, speed));
    forall p ensures At(TurnLeft(c1, speed), p) == At(TurnLeft(c2, speed), p) {
      CommandsIgnorePriorState(At(c1, p), At(c2, p), speed);
    }
    ControllerExtensionality(TurnLeft(c1, speed), TurnLeft(c2, speed));
    forall p ensures At(TurnRight(c1, speed), p) == At(TurnRight(c2, speed), p) {
      CommandsIgnorePriorState(At(c1, p), At(c2, p), speed);
    }
    ControllerExtensionality(TurnRight(c1, speed), TurnRight(c2, speed));
    forall p ensures At(Stop(c1), p) == At(Stop(c2), p) {
      CommandsIgnorePriorState(At(c1, p), At(c2, p), speed);
    }
    ControllerExtensionality(Stop(c1), Stop(c2));
  }

  /** Repeating a manoeuvre leaves the pins as one call left them. */
  lemma ManoeuvresIdempotent(c: Controller, speed: Speed)
    ensures Forward(Forward(c, speed), speed) == Forward(c, speed)
    ensures Reverse(Reverse(c, speed), speed) == Reverse(c, speed)
    ensures TurnLeft(TurnLeft(c, speed), speed) == TurnLeft(c, speed)
    ensures TurnRight(TurnRight(c, speed), speed) == TurnRight(c, speed)
    ensures Stop(Stop(c)) == Stop(c)
  {
    ManoeuvresIgnorePriorState(Forward(c, speed), c, speed);
    ManoeuvresIgnorePriorState(Reverse(c, speed), c, speed);
    ManoeuvresIgnorePriorState(TurnLeft(c, speed), c, speed);
    ManoeuvresIgnorePriorState(TurnRight(c, speed), c, speed);
    ManoeuvresIgnorePriorState(Stop(c), c, speed);
  }
}
