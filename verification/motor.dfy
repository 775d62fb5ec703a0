/**
 `Motor`: one DC motor behind an H-bridge with two control pins, A and B.

 Pin writes become state: each pin holds a `Level`. Driving a direction pulls
 the inactive pin low and puts the active pin at full digital high, or at a
 pulse-width duty when the motor is PWM-capable and the speed is below full.
 The `inverted` flag swaps which pin is active for forward and reverse.
 */
module Motors {

  /** An 8-bit speed argument (`uint8_t`). */
  type Speed = x: int | 0 <= x <= 255

  /** The default speed of `forward` and `reverse`. */
  const FullSpeed: Speed := 255

  /** What a control pin is set to: `digitalWrite` LOW or HIGH, or `analogWrite` with a duty. */
  datatype Level = Low | High | Pwm(duty: Speed)

  datatype Terminal = A | B

  /** The motor's fixed configuration and the current level of each control pin. */
  datatype Motor = Motor(pwmCapable: bool, inverted: bool, a: Level, b: Level)

  /** What the two pins make the wheel do, read back from the pin levels. */
  datatype Motion = Stopped | Forwards(speed: Speed) | Backwards(speed: Speed) | ShootThrough

  /** The duty a pin level delivers: none when low, all of it when high. */
  function Duty(l: Level): Speed
  {
    match l
    case Low => 0
    case High => FullSpeed
    case Pwm(d) => d
  }

  /**
   The motion the pins encode. A pin is energised unless it is low; the wheel
   turns forwards when the energised pin is A on a straight motor or B on an
   inverted one.
   */
  function Observe(m: Motor): Motion
  {
    if m.a == Low && m.b == Low then Stopped
    else if m.a != Low && m.b != Low then ShootThrough
    else
      var aDrives := m.a != Low;
      var duty := if aDrives then Duty(m.a) else Duty(m.b);
      if aDrives != m.inverted then Forwards(duty) else Backwards(duty)
  }

  /** The speed a motor actually runs at when asked for `speed`: any speed with PWM, full speed without. */
  function EffectiveSpeed(pwmCapable: bool, speed: Speed): Speed
  {
    if pwmCapable then speed else FullSpeed
  }

  /** Two motors with the same flags. */
  predicate SameConfig(m1: Motor, m2: Motor)
  {
    m1.pwmCapable == m2.pwmCapable && m1.inverted == m2.inverted
  }

  /**
   The constructor: it records the flags and writes no pin. The pins are taken
   to be low, the state they read as before `begin` configures them.
   */
  function NewMotor(pwmCapable: bool, inverted: bool): (m: Motor)
    ensures m.pwmCapable == pwmCapable && m.inverted == inverted
    ensures Observe(m) == Stopped
  {
    Motor(pwmCapable, inverted, Low, Low)
  }

  /** The level the active pin gets: a PWM duty only when the motor supports it and the speed is below full. */
  function ActiveLevel(pwmCapable: bool, speed: Speed): (l: Level)
    ensures l != Low
    ensures l.Pwm? <==> pwmCapable && speed < FullSpeed
    ensures Duty(l) == EffectiveSpeed(pwmCapable, speed)
  {
    if pwmCapable && speed < FullSpeed then Pwm(speed) else High
  }

  /** The level of pin `t`. */
  function PinLevel(m: Motor, t: Terminal): Level
  {
    if t == A then m.a else m.b
  }

  /** `setMotorDirection(active, inactive, speed)`: the inactive pin low, the active pin driven. */
  function SetDirection(m: Motor, active: Terminal, speed: Speed): (r: Motor)
    ensures SameConfig(r, m)
    ensures PinLevel(r, active) == ActiveLevel(m.pwmCapable, speed)
    ensures PinLevel(r, if active == A then B else A) == Low
  {
    var level := ActiveLevel(m.pwmCapable, speed);
    if active == A then m.(b := Low, a := level) else m.(a := Low, b := level)
  }

  /** `forward(speed)`: pin A active on a straight motor, pin B on an inverted one. */
  function Forward(m: Motor, speed: Speed): (r: Motor)
    ensures SameConfig(r, m)
    ensures Observe(r) == Forwards(EffectiveSpeed(m.pwmCapable, speed))
    ensures r.a == Low || r.b == Low
    ensures !m.inverted ==> r.a != Low && r.b == Low
  {
    SetDirection(m, if m.inverted then B else A, speed)
  }

  /** `reverse(speed)`: pin B active on a straight motor, pin A on an inverted one. */
  function Reverse(m: Motor, speed: Speed): (r: Motor)
    ensures SameConfig(r, m)
    ensures Observe(r) == Backwards(EffectiveSpeed(m.pwmCapable, speed))
    ensures r.a == Low || r.b == Low
    ensures !m.inverted ==> r.a == Low && r.b != Low
  {
    SetDirection(m, if m.inverted then A else B, speed)
  }

  /** `stop()`: both pins low, whatever they were. */
  function Stop(m: Motor): (r: Motor)
    ensures SameConfig(r, m)
    ensures r.a == Low && r.b == Low
    ensures Observe(r) == Stopped
  {
    m.(a := Low, b := Low)
  }

  /** `begin()`: configures the pins as outputs and stops the motor. */
  function Begin(m: Motor): (r: Motor)
    ensures SameConfig(r, m)
    ensures Observe(r) == Stopped
  {
    Stop(m)
  }

  /**
   Inversion swaps the directions: an inverted motor driven forward sets its
   pins exactly as a straight motor driven in reverse, and the other way round.
   */
  lemma InversionSwapsDirections(m: Motor, speed: Speed)
    ensures var inv := m.(inverted := true);
      var straight := m.(inverted := false);
      && Forward(inv, speed).a == Reverse(straight, speed).a
      && Forward(inv, speed).b == Reverse(straight, speed).b
      && Reverse(inv, speed).a == Forward(straight, speed).a
      && Reverse(inv, speed).b == Forward(straight, speed).b
  {
  }

  /** Without PWM the speed argument makes no difference: the active pin is always high. */
  lemma NonPwmIgnoresSpeed(m: Motor, s1: Speed, s2: Speed)
    requires !m.pwmCapable
    ensures Forward(m, s1) == Forward(m, s2)
    ensures Reverse(m, s1) == Reverse(m, s2)
  {
  }

  /**
   The pins after any command depend only on the flags and the arguments, not
   on what the pins held before; so repeating a command changes nothing.
   */
  lemma CommandsIgnorePriorState(m1: Motor, m2: Motor, speed: Speed)
    requires SameConfig(m1, m2)
    ensures Forward(m1, speed) == Forward(m2, speed)
    ensures Reverse(m1, speed) == Reverse(m2, speed)
    ensures Stop(m1) == Stop(m2)
    ensures Forward(Forward(m1, speed), speed) == Forward(m1, speed)
    ensures Reverse(Reverse(m1, speed), speed) == Reverse(m1, speed)
  {
  }
}
