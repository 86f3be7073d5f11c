/**
 * `useTypingEffect(text, speed)`: a hook that reveals `text` one character
 * per timer callback. The effect body runs after every change of the shown
 * text, the text or the speed; its state updates take effect together after
 * it returns, and a timer it arms is cancelled when the shown text changes
 * before the timer fires.
 */
module TypingEffect {
  import opened Common

  /** The hook's state: the shown text, the typing flag and the last speed seen. */
  datatype Hook = Hook(displayed: string, isTyping: bool, prevSpeed: int)

  /** The state right after mounting with speed `speed`. */
  function Mounted(speed: int): Hook {
    Hook("", true, speed)
  }

  /** One run of the effect: the new state and the text the armed timer will show, if a timer is left armed. */
  datatype Outcome = Outcome(state: Hook, timer: Option<string>)

  /** The effect body, for the shown text, typing flag and last speed of `s`. */
  function Effect(s: Hook, text: string, speed: int): (o: Outcome)
    ensures o.state.prevSpeed == speed
    ensures speed == 0 ==> o.timer.None?
    ensures speed == 0 && s.prevSpeed != 0 ==> o.state.displayed == "" && o.state.isTyping
    ensures speed == 0 && s.prevSpeed == 0 ==> o.state.displayed == s.displayed && o.state.isTyping == s.isTyping
    ensures s.prevSpeed == 0 && speed > 0 ==> o.state.displayed == ""
    ensures s.prevSpeed == 0 && speed > 0 && |s.displayed| < |text| ==> o.state.isTyping
    ensures speed != 0 && !(s.prevSpeed == 0 && speed > 0) ==> o.state.displayed == s.displayed
    ensures o.timer.Some? ==> |s.displayed| < |text| && o.timer.value == text[..|s.displayed| + 1]
    ensures !o.state.isTyping ==> (speed != 0 && |s.displayed| >= |text|) || (!s.isTyping && o.state == s.(prevSpeed := speed))
  {
    if speed == 0 then
      if s.prevSpeed != 0 then Outcome(Hook("", true, 0), None)
      else Outcome(s.(prevSpeed := 0), None)
    else
      var reset := s.prevSpeed == 0 && speed > 0;
      var shown := if reset then "" else s.displayed;
      var typing := if reset then true else s.isTyping;
      if |s.displayed| < |text| then
        // a timer survives only when the shown text is left as it is
        Outcome(Hook(shown, typing, speed), if shown == s.displayed then Some(text[..|s.displayed| + 1]) else None)
      else
        Outcome(Hook(shown, false, speed), None)
  }

  /** The armed timer fires: it shows its text and nothing else changes. */
  function Fire(s: Hook, shown: string): (r: Hook)
    ensures r.displayed == shown && r.isTyping == s.isTyping && r.prevSpeed == s.prevSpeed
  {
    s.(displayed := shown)
  }

  /**
   * The hook's invariant for a fixed text: the shown text is a prefix of it,
   * nothing is shown after a speed of 0, and typing is over only once the
   * whole text is shown.
   */
  predicate Good(s: Hook, text: string) {
    && s.displayed <= text
    && (s.prevSpeed == 0 ==> s.displayed == "")
    && (!s.isTyping ==> s.displayed == text)
  }

  lemma MountedGood(text: string, speed: int)
    ensures Good(Mounted(speed), text)
  {
  }

  /**
   * The effect and the timer it arms keep the invariant: each typing step
   * extends the shown prefix by exactly one character of the text.
   */
  lemma EffectKeepsGood(s: Hook, text: string, speed: int)
    requires Good(s, text)
    ensures var o := Effect(s, text, speed);
      && Good(o.state, text)
      && (o.timer.Some? ==>
            && Good(Fire(o.state, o.timer.value), text)
            && s.displayed < o.timer.value && |o.timer.value| == |s.displayed| + 1)
  {
    var o := Effect(s, text, speed);
    if o.timer.Some? {
      assert o.timer.value[..|s.displayed|] == s.displayed;
    }
  }

  /** With speed 0 nothing is typed, whatever the state. */
  lemma ZeroSpeedTypesNothing(s: Hook, text: string)
    ensures var o := Effect(s, text, 0); o.timer.None? && |o.state.displayed| <= |s.displayed|
  {
  }

  /**
   * The reveal terminates: from a good state, at a positive speed, one
   * effect run per missing character, each followed by its timer, and a
   * last effect run show the whole text with typing over.
   */
  function Reveal(s: Hook, text: string, speed: int, n: nat): Hook
    decreases n
  {
    var o := Effect(s, text, speed);
    if n == 0 || o.timer.None? then o.state else Reveal(Fire(o.state, o.timer.value), text, speed, n - 1)
  }

  lemma {:induction false} RevealCompletes(s: Hook, text: string, speed: int)
    requires Good(s, text) && speed > 0
    ensures var r := Reveal(s, text, speed, |text| - |s.displayed|);
      r.displayed == text && !r.isTyping && r.prevSpeed == speed
    decreases |text| - |s.displayed|
  {
    var o := Effect(s, text, speed);
    EffectKeepsGood(s, text, speed);
    if |s.displayed| < |text| {
      if s.prevSpeed == 0 {
        assert s.displayed == "" && o.state.displayed == "";
      }
      assert o.timer.Some?;
      var next := Fire(o.state, o.timer.value);
      RevealCompletes(next, text, speed);
    } else {
      assert s.displayed == text;
    }
  }
}
