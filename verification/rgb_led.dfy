/**
 `RgbLed`: three on/off colour channels and a remembered on/off flag.

 The channels are whatever the last call wrote. The remembered flag is read
 and written only by `toggle`; every other call leaves it alone.
 */
module Rgb {

  datatype Channel = Red | Green | Blue

  const AllChannels: set<Channel> := {Red, Green, Blue}

  datatype RgbLed = RgbLed(red: bool, green: bool, blue: bool, isOn: bool)

  /** The channels that are lit. */
  function Lit(l: RgbLed): set<Channel>
  {
    (if l.red then {Red} else {}) + (if l.green then {Green} else {}) + (if l.blue then {Blue} else {})
  }

  /** The constructor: the remembered flag starts off; no channel has been written. */
  function NewLed(): (l: RgbLed)
    ensures !l.isOn
  {
    RgbLed(false, false, false, false)
  }

  /** `setColor(red, green, blue)`: each channel exactly as given; the remembered flag untouched. */
  function SetColor(l: RgbLed, red: bool, green: bool, blue: bool): (r: RgbLed)
    ensures Red in Lit(r) <==> red
    ensures Green in Lit(r) <==> green
    ensures Blue in Lit(r) <==> blue
    ensures r.isOn == l.isOn
  {
    l.(red := red, green := green, blue := blue)
  }

  /** `on()`: every channel lit. */
  function On(l: RgbLed): (r: RgbLed)
    ensures Lit(r) == AllChannels && r.isOn == l.isOn
  {
    SetColor(l, true, true, true)
  }

  /** `off()`: every channel dark. */
  function Off(l: RgbLed): (r: RgbLed)
    ensures Lit(r) == {} && r.isOn == l.isOn
  {
    SetColor(l, false, false, false)
  }

  /** `setRed()`: red alone, the other two channels overwritten dark. */
  function SetRed(l: RgbLed): (r: RgbLed)
    ensures Lit(r) == {Red} && r.isOn == l.isOn
  {
    SetColor(l, true, false, false)
  }

  /** `setGreen()`: green alone. */
  function SetGreen(l: RgbLed): (r: RgbLed)
    ensures Lit(r) == {Green} && r.isOn == l.isOn
  {
    SetColor(l, false, true, false)
  }

  /** `setBlue()`: blue alone. */
  function SetBlue(l: RgbLed): (r: RgbLed)
    ensures Lit(r) == {Blue} && r.isOn == l.isOn
  {
    SetColor(l, false, false, true)
  }

  /** `begin()`: configures the pins and turns every channel off; the remembered flag is untouched. */
  function Begin(l: RgbLed): (r: RgbLed)
    ensures Lit(r) == {} && r.isOn == l.isOn
  {
    Off(l)
  }

  /** `toggle()`: flips the remembered flag, then lights all channels or none to match it. */
  function Toggle(l: RgbLed): (r: RgbLed)
    ensures r.isOn == !l.isOn
    ensures Lit(r) == if r.isOn then AllChannels else {}
  {
    var isOn := !l.isOn;
    var r := l.(isOn := isOn);
    if isOn then On(r) else Off(r)
  }

  /** Setting a colour twice is the same as setting it once. */
  lemma SetColorIdempotent(l: RgbLed, red: bool, green: bool, blue: bool)
    ensures SetColor(SetColor(l, red, green, blue), red, green, blue) == SetColor(l, red, green, blue)
  {
  }

  /**
   Two toggles restore the remembered flag but not the colour shown before:
   the channels end up all lit or all dark.
   */
  lemma ToggleTwice(l: RgbLed)
    ensures Toggle(Toggle(l)).isOn == l.isOn
    ensures Lit(Toggle(Toggle(l))) == if l.isOn then AllChannels else {}
    ensures Lit(Toggle(Toggle(SetRed(l)))) != {Red}
  {
  }

  /**
   `toggle` goes by the remembered flag, not by what is shown: after `setRed`
   on an LED remembered as on, a toggle turns everything off.
   */
  lemma ToggleIgnoresShownColour(l: RgbLed)
    requires l.isOn
    ensures Lit(Toggle(SetRed(l))) == {}
    ensures Lit(Toggle(SetGreen(l))) == {}
    ensures Lit(Toggle(SetBlue(l))) == {}
  {
  }
}
