/**
 * The landing animation's effect: a typing interval that reveals a growing
 * prefix of the headline and then stops and marks the animation complete,
 * and a cursor interval that toggles the cursor. The component's state and
 * the effect's `currentIndex` are the fields of `LandingAnimation`; each
 * interval callback is a method; the browser's timer is whoever calls them.
 */
module LandingAnimation {

  const FullText: string := "From Insight to Actionable AI"
  /** Milliseconds between typing ticks and between cursor ticks. */
  const TypingSpeed: nat := 100
  const CursorBlinkSpeed: nat := 500

  /** What the typing interval has produced: the state it sets and the index it keeps. */
  datatype Typing = Typing(displayText: string, currentIndex: nat, complete: bool, active: bool)

  const TypingStart: Typing := Typing("", 0, false, true)

  /**
   * One call of the typing callback over the headline `text`; it is only called while its
   * interval is active.
   */
  function TypingTick(text: string, s: Typing): (r: Typing)
    requires s.active && s.currentIndex <= |text| + 1
    ensures r.currentIndex <= |text| + 1
  {
    if s.currentIndex <= |text| then
      s.(displayText := text[..s.currentIndex], currentIndex := s.currentIndex + 1)
    else
      s.(complete := true, active := false)
  }

  /** The typing state after t ticks; the interval is cleared on tick |text| + 2, so no later tick exists. */
  function AfterTicks(text: string, t: nat): (s: Typing)
    requires t <= |text| + 2
    ensures s.currentIndex <= |text| + 1
    ensures t < |text| + 2 ==> s.active && s.currentIndex == t
  {
    if t == 0 then TypingStart else TypingTick(text, AfterTicks(text, t - 1))
  }

  /** Before tick |text| + 2 the interval is still running. */
  lemma {:induction false} AfterTicksActive(text: string, t: nat)
    requires t < |text| + 2
    ensures t == 0 ==> AfterTicks(text, t) == TypingStart
    ensures t > 0 ==> AfterTicks(text, t) == Typing(text[..t - 1], t, false, true)
  {
    if t > 0 {
      AfterTicksActive(text, t - 1);
    }
  }

  /**
   * Ticks 1 .. |text| + 1 show the first t - 1 characters and leave the animation incomplete;
   * tick |text| + 2 stops the interval and completes it with the whole text shown.
   */
  lemma TypingClosedForm(text: string, t: nat)
    requires t <= |text| + 2
    ensures 1 <= t <= |text| + 1 ==> AfterTicks(text, t).displayText == text[..t - 1] && !AfterTicks(text, t).complete
    ensures t == |text| + 2 ==> AfterTicks(text, t).displayText == text && AfterTicks(text, t).complete && !AfterTicks(text, t).active
    ensures AfterTicks(text, t).complete <==> t == |text| + 2
    ensures AfterTicks(text, t).displayText <= text
  {
    if t < |text| + 2 {
      AfterTicksActive(text, t);
    } else {
      AfterTicksActive(text, t - 1);
      assert text[..|text|] == text;
    }
  }

  /** The shown text never shrinks, and grows by exactly one character per tick until it is whole. */
  lemma TypingGrowth(text: string, t: nat)
    requires t < |text| + 2
    ensures |AfterTicks(text, t + 1).displayText| >= |AfterTicks(text, t).displayText|
    ensures 1 <= t <= |text| ==> |AfterTicks(text, t + 1).displayText| == |AfterTicks(text, t).displayText| + 1
    ensures AfterTicks(text, t).displayText <= AfterTicks(text, t + 1).displayText
  {
    TypingClosedForm(text, t);
    TypingClosedForm(text, t + 1);
    if 0 < t <= |text| {
      AfterTicksActive(text, t);
      assert text[..t][..t - 1] == text[..t - 1];
    }
  }

  /** The component's state, the effect's index and which intervals are still registered. */
  class LandingAnimation {
    const fullText: string
    var displayText: string
    var showCursor: bool
    var animationComplete: bool
    var currentIndex: nat
    var typingActive: bool
    var cursorActive: bool
    ghost var typingTicks: nat
    ghost var cursorTicks: nat
    ghost var mounted: bool

    function TypingState(): Typing
      reads this
    {
      Typing(displayText, currentIndex, animationComplete, typingActive)
    }

    /** The typing state is the one after the ticks so far; the cursor shows after an even number of blinks. */
    ghost predicate Valid()
      reads this
    {
      && typingTicks <= |fullText| + 2
      && (mounted ==> TypingState() == AfterTicks(fullText, typingTicks) && cursorActive)
      && (!mounted ==> TypingState() == AfterTicks(fullText, typingTicks).(active := false) && !cursorActive)
      && showCursor == (cursorTicks % 2 == 0)
    }

    /** Mounting: the initial state and both intervals registered. */
    constructor()
      ensures Valid() && fullText == FullText && mounted && typingTicks == 0 && cursorTicks == 0
      ensures displayText == "" && showCursor && !animationComplete && typingActive && cursorActive
    {
      fullText := FullText;
      displayText := "";
      showCursor := true;
      animationComplete := false;
      currentIndex := 0;
      typingActive := true;
      cursorActive := true;
      typingTicks := 0;
      cursorTicks := 0;
      mounted := true;
    }

    /** The typing interval's callback. */
    method OnTypingInterval()
      requires Valid() && typingActive
      modifies this
      ensures Valid()
      ensures mounted && typingTicks == old(typingTicks) + 1 && TypingState() == AfterTicks(fullText, typingTicks)
      ensures TypingState() == TypingTick(fullText, old(TypingState()))
      ensures showCursor == old(showCursor) && cursorTicks == old(cursorTicks) && cursorActive == old(cursorActive)
    {
      ghost var before := TypingState();
      assert mounted && before == AfterTicks(fullText, typingTicks);
      if currentIndex <= |fullText| {
        displayText := fullText[..currentIndex];
        currentIndex := currentIndex + 1;
      } else {
        typingActive := false;
        animationComplete := true;
      }
      typingTicks := typingTicks + 1;
      assert TypingState() == TypingTick(fullText, before);
    }

    /** The cursor interval's callback: the cursor flag is negated. */
    method OnCursorInterval()
      requires Valid() && cursorActive
      modifies this
      ensures Valid()
      ensures showCursor == !old(showCursor) && cursorTicks == old(cursorTicks) + 1
      ensures TypingState() == old(TypingState()) && typingTicks == old(typingTicks)
      ensures mounted == old(mounted) && cursorActive
    {
      showCursor := !showCursor;
      cursorTicks := cursorTicks + 1;
    }

    /** Unmounting: the effect's cleanup clears both intervals and changes nothing shown. */
    method Unmount()
      requires Valid()
      modifies this
      ensures Valid()
      ensures !mounted && !typingActive && !cursorActive
      ensures displayText == old(displayText) && showCursor == old(showCursor) && animationComplete == old(animationComplete)
      ensures currentIndex == old(currentIndex) && typingTicks == old(typingTicks) && cursorTicks == old(cursorTicks)
    {
      typingActive := false;
      cursorActive := false;
      mounted := false;
    }

    /** `{animationComplete && ...}`: the scroll button is rendered exactly when the animation is complete. */
    function ScrollButtonShown(): bool
      reads this
    {
      animationComplete
    }

    /** The scroll button shows exactly after tick |fullText| + 2, and then the whole text is shown. */
    lemma ScrollButtonAfterTyping()
      requires Valid()
      ensures ScrollButtonShown() <==> typingTicks == |fullText| + 2
      ensures ScrollButtonShown() ==> displayText == fullText
      ensures displayText <= fullText
    {
      TypingClosedForm(fullText, typingTicks);
    }
  }
}
