/**
 * The scroll-reveal hook: an element starts hidden and becomes visible when the
 * intersection observer reports it in view; in trigger-once mode it then stays
 * visible and is no longer observed, otherwise it follows every report. And the class
 * string that turns the visibility, an animation and a delay into Tailwind classes.
 */
module ScrollAnimation {
  import opened Common
  import Text

  /** The hook's options; an absent option takes its default. */
  datatype Options = Options(rootMargin: Option<string>, triggerOnce: Option<bool>)

  /** The observer's state: the `isVisible` cell and whether the element is still observed. */
  class ScrollReveal {
    var isVisible: bool
    var observing: bool
    const rootMargin: string
    const triggerOnce: bool

    /** In trigger-once mode the element is visible exactly when it is no longer observed. */
    predicate Valid()
      reads this
    {
      triggerOnce ==> isVisible == !observing
    }

    /** Mounting with the element attached: hidden, observed, defaults `'0px'` and trigger-once. */
    constructor (options: Options)
      ensures Valid()
      ensures !isVisible && observing
      ensures rootMargin == (if options.rootMargin.Some? then options.rootMargin.value else "0px")
      ensures triggerOnce == (if options.triggerOnce.Some? then options.triggerOnce.value else true)
    {
      isVisible := false;
      observing := true;
      rootMargin := if options.rootMargin.Some? then options.rootMargin.value else "0px";
      triggerOnce := if options.triggerOnce.Some? then options.triggerOnce.value else true;
    }

    /** The observer callback for one entry; it only runs while the element is observed. */
    method OnEntry(isIntersecting: bool)
      requires Valid() && observing
      modifies this
      ensures Valid()
      ensures isIntersecting ==> isVisible
      ensures !triggerOnce ==> isVisible == isIntersecting && observing
      ensures triggerOnce ==> isVisible == (old(isVisible) || isIntersecting)
      ensures triggerOnce ==> (observing <==> !isIntersecting)
    {
      if isIntersecting {
        isVisible := true;
        if triggerOnce {
          observing := false;
        }
      } else if !triggerOnce {
        isVisible := false;
      }
    }
  }

  // ---------------------------------------------------------------------------
  // getAnimationClasses
  // ---------------------------------------------------------------------------

  datatype Animation = FadeUp | FadeLeft | FadeRight | Scale | Fade

  /** `'transition-all duration-700 ease-out'`, class by class. */
  const BaseClasses: seq<string> := ["transition-all", "duration-700", "ease-out"]

  /** The `animations` table, class by class. */
  function AnimationTokens(a: Animation, isVisible: bool): (tokens: seq<string>)
    ensures |tokens| >= 1 && forall i | 0 <= i < |tokens| :: ' ' !in tokens[i]
  {
    match a
    case FadeUp => if isVisible then ["opacity-100", "translate-y-0"] else ["opacity-0", "translate-y-8"]
    case FadeLeft => if isVisible then ["opacity-100", "translate-x-0"] else ["opacity-0", "-translate-x-8"]
    case FadeRight => if isVisible then ["opacity-100", "translate-x-0"] else ["opacity-0", "translate-x-8"]
    case Scale => if isVisible then ["opacity-100", "scale-100"] else ["opacity-0", "scale-95"]
    case Fade => if isVisible then ["opacity-100"] else ["opacity-0"]
  }

  /** `delay > 0 ? `delay-${delay}` : ''` for a whole-number delay. */
  function DelayClass(delay: int): (c: string)
    ensures ' ' !in c
    ensures c == "" <==> delay <= 0
    ensures delay > 0 ==> |c| > 6 && c[..6] == "delay-" && (forall i | 6 <= i < |c| :: Text.IsDigit(c[i])) && Text.DigitsValue(c[6..]) == delay
  {
    if delay > 0 then
      assert ("delay-" + Text.NatToString(delay))[6..] == Text.NatToString(delay);
      Text.NatToStringValue(delay);
      "delay-" + Text.NatToString(delay)
    else ""
  }

  /**
   * `getAnimationClasses(isVisible, animation = 'fade-up', delay = 0)`: the base classes
   * first, the delay class (of the default delay 0 when none is given) last.
   */
  function GetAnimationClasses(isVisible: bool, animation: Option<Animation>, delay: Option<int>): (r: string)
    ensures var base := Text.Join(BaseClasses, ' ') + " ";
      |r| > |base| && r[..|base|] == base
    ensures var last := " " + DelayClass(if delay.Some? then delay.value else 0);
      |r| >= |last| && r[|r| - |last|..] == last
  {
    var a := if animation.Some? then animation.value else FadeUp;
    var d := if delay.Some? then delay.value else 0;
    Text.Join(BaseClasses, ' ') + " " + Text.Join(AnimationTokens(a, isVisible), ' ') + " " + DelayClass(d)
  }

  /** The string lists the base classes, the animation's classes, then the delay class (empty when there is no delay). */
  lemma ClassTokens(isVisible: bool, a: Animation, delay: int)
    ensures Text.Split(GetAnimationClasses(isVisible, Some(a), Some(delay)), ' ') ==
      BaseClasses + AnimationTokens(a, isVisible) + [DelayClass(delay)]
  {
    var anim := AnimationTokens(a, isVisible);
    Text.JoinAppend(BaseClasses, anim, ' ');
    Text.JoinAppend(BaseClasses + anim, [DelayClass(delay)], ' ');
    var all := BaseClasses + anim + [DelayClass(delay)];
    assert forall i | 0 <= i < |all| :: ' ' !in all[i] by {
      forall i | 0 <= i < |all| ensures ' ' !in all[i] {
        if i >= |BaseClasses| && i < |BaseClasses| + |anim| {
          assert all[i] == anim[i - |BaseClasses|];
        }
      }
    }
    Text.SplitJoin(all, ' ');
  }

  /** Every animation shows `opacity-100` when visible and `opacity-0` when hidden, and never both. */
  lemma Opacity(isVisible: bool, a: Animation, delay: int)
    ensures var classes := Text.Split(GetAnimationClasses(isVisible, Some(a), Some(delay)), ' ');
      ("opacity-100" in classes <==> isVisible) && ("opacity-0" in classes <==> !isVisible)
  {
    ClassTokens(isVisible, a, delay);
    var classes := BaseClasses + AnimationTokens(a, isVisible) + [DelayClass(delay)];
    assert classes[3] == if isVisible then "opacity-100" else "opacity-0";
    assert DelayClass(delay) != "opacity-100" && DelayClass(delay) != "opacity-0" by {
      if delay > 0 {
        assert DelayClass(delay)[0] == 'd' && "opacity-100"[0] == 'o' && "opacity-0"[0] == 'o';
      }
    }
  }

  /** Without a delay the string ends with the separator before the empty delay class. */
  lemma TrailingSpace(isVisible: bool, a: Animation, delay: int)
    requires delay <= 0
    ensures var r := GetAnimationClasses(isVisible, Some(a), Some(delay)); |r| > 0 && r[|r| - 1] == ' '
  {
  }

  /** The defaults are the `fade-up` animation without a delay. */
  lemma Defaults(isVisible: bool)
    ensures GetAnimationClasses(isVisible, None, None) == GetAnimationClasses(isVisible, Some(FadeUp), Some(0))
  {
  }
}
