/** The side-by-side swing player (components/SwingComparison.tsx): the
    table of swing phases, the lookup of the phase at a position of the
    swing, and the slider / playing / active-phase state its controls and
    its animation loop update. The videos are represented by whether each is
    shown, its duration once loaded and the time the slider last set on it;
    the time a playing video has reached is an input of an animation frame. */
module SwingComparison {
  import opened Common

  datatype SwingPhase = SwingPhase(title: string, position: real, description: string)

  const SwingPhases: seq<SwingPhase> := [
    SwingPhase("Address", 0.0, "Setup position over the ball"),
    SwingPhase("Takeaway", 0.15, "Club moves away from ball"),
    SwingPhase("Top of Backswing", 0.35, "Full backswing position"),
    SwingPhase("Downswing Start", 0.5, "Transition to downswing"),
    SwingPhase("Impact", 0.7, "Club meets ball"),
    SwingPhase("Follow Through", 0.85, "Post-impact extension"),
    SwingPhase("Finish", 1.0, "Full finish position")
  ]

  function Position(i: nat): real
    requires i < |SwingPhases|
  {
    SwingPhases[i].position
  }

  /** The phases run from 0 to 1 in strictly increasing order. */
  lemma PhasePositionsIncreasing()
    ensures Position(0) == 0.0 && Position(|SwingPhases| - 1) == 1.0
    ensures forall i, j :: 0 <= i < j < |SwingPhases| ==> Position(i) < Position(j)
  {
  }

  /** The `findIndex` test for phase `i`: the last phase always matches,
      every other one when `p` lies in `[position, next position)`. */
  predicate PhaseMatches(p: real, i: nat)
    requires i < |SwingPhases|
  {
    i == |SwingPhases| - 1 || (Position(i) <= p < Position(i + 1))
  }

  function FindPhaseFrom(p: real, i: nat): (k: nat)
    requires i < |SwingPhases|
    ensures i <= k < |SwingPhases| && PhaseMatches(p, k)
    ensures forall j :: i <= j < k ==> !PhaseMatches(p, j)
    decreases |SwingPhases| - i
  {
    if PhaseMatches(p, i) then i else FindPhaseFrom(p, i + 1)
  }

  /** The phase shown at normalised position `p`: always one of the phases;
      for `p` in `[0, 1)` the one whose interval holds `p`, otherwise the
      last one. */
  function PhaseIndexAt(p: real): (k: nat)
    ensures k < |SwingPhases|
    ensures 0.0 <= p < 1.0 ==> k + 1 < |SwingPhases| && Position(k) <= p < Position(k + 1)
    ensures (p < 0.0 || p >= 1.0) ==> k == |SwingPhases| - 1
  {
    var k := FindPhaseFrom(p, 0);
    PhasePositionsIncreasing();
    if 0.0 <= p then PassedPhases(p, k); k else k
  }

  /** A non-negative position that matched none of the first `k` phases lies
      at or beyond phase `k`. */
  lemma {:induction false} PassedPhases(p: real, k: nat)
    requires 0.0 <= p && k < |SwingPhases|
    requires forall j :: 0 <= j < k ==> !PhaseMatches(p, j)
    ensures Position(k) <= p
  {
    if k > 0 {
      PassedPhases(p, k - 1);
      assert !PhaseMatches(p, k - 1);
    }
  }

  /** Each phase is found at its own position. */
  lemma PhaseAtOwnPosition(i: nat)
    requires i < |SwingPhases|
    ensures PhaseIndexAt(Position(i)) == i
  {
    PhasePositionsIncreasing();
    var k := PhaseIndexAt(Position(i));
    if i < |SwingPhases| - 1 {
      assert Position(k) <= Position(i) < Position(k + 1);
    }
  }

  class SwingPlayer {
    var sliderValue: real
    var isPlaying: bool
    var activePhase: Option<nat>
    var proDuration: real
    var personalDuration: real
    var proTime: real
    var personalTime: real
    const hasProVideo: bool
    const hasPersonalVideo: bool

    ghost predicate Valid()
      reads this
    {
      && 0.0 <= sliderValue <= 100.0
      && (activePhase.Some? ==> activePhase.value < |SwingPhases|)
      && proDuration >= 0.0 && personalDuration >= 0.0
    }

    /** A fresh player; a video is shown only when the analysis has its URL. */
    constructor(hasProVideo: bool, hasPersonalVideo: bool)
      ensures Valid()
      ensures sliderValue == 0.0 && !isPlaying && activePhase == None
      ensures proDuration == 0.0 && personalDuration == 0.0
      ensures this.hasProVideo == hasProVideo && this.hasPersonalVideo == hasPersonalVideo
    {
      sliderValue := 0.0;
      isPlaying := false;
      activePhase := None;
      proDuration := 0.0;
      personalDuration := 0.0;
      proTime := 0.0;
      personalTime := 0.0;
      this.hasProVideo := hasProVideo;
      this.hasPersonalVideo := hasPersonalVideo;
    }

    /** `onLoadedMetadata` of one of the videos. */
    method LoadedMetadata(pro: bool, duration: real)
      requires Valid() && duration >= 0.0
      modifies this
      ensures Valid()
      ensures pro ==> proDuration == duration && personalDuration == old(personalDuration)
      ensures !pro ==> personalDuration == duration && proDuration == old(proDuration)
      ensures sliderValue == old(sliderValue) && isPlaying == old(isPlaying) && activePhase == old(activePhase)
      ensures proTime == old(proTime) && personalTime == old(personalTime)
    {
      if pro {
        proDuration := duration;
      } else {
        personalDuration := duration;
      }
    }

    /** `syncVideosToSlider`: seek each shown video with a known duration to
      the same fraction of its length, and show the phase at that fraction. */
    method SyncVideosToSlider(value: real)
      requires Valid()
      modifies this
      ensures Valid()
      ensures activePhase == Some(PhaseIndexAt(value / 100.0))
      ensures proTime == if hasProVideo && proDuration > 0.0 then value / 100.0 * proDuration else old(proTime)
      ensures personalTime == if hasPersonalVideo && personalDuration > 0.0 then value / 100.0 * personalDuration else old(personalTime)
      ensures sliderValue == old(sliderValue) && isPlaying == old(isPlaying)
      ensures proDuration == old(proDuration) && personalDuration == old(personalDuration)
    {
      var normalized := value / 100.0;
      if hasProVideo && proDuration > 0.0 {
        proTime := normalized * proDuration;
      }
      if hasPersonalVideo && personalDuration > 0.0 {
        personalTime := normalized * personalDuration;
      }
      activePhase := Some(PhaseIndexAt(normalized));
    }

    /** `handleSliderChange`: scrubbing moves the slider and the videos and
      stops playback. */
    method HandleSliderChange(value: real)
      requires Valid() && 0.0 <= value <= 100.0
      modifies this
      ensures Valid()
      ensures sliderValue == value && !isPlaying
      ensures activePhase == Some(PhaseIndexAt(value / 100.0))
      ensures proTime == if hasProVideo && proDuration > 0.0 then value / 100.0 * proDuration else old(proTime)
      ensures personalTime == if hasPersonalVideo && personalDuration > 0.0 then value / 100.0 * personalDuration else old(personalTime)
      ensures proDuration == old(proDuration) && personalDuration == old(personalDuration)
    {
      sliderValue := value;
      SyncVideosToSlider(value);
      if isPlaying {
        isPlaying := false;
      }
    }

    /** `handlePhaseClick`: jump to a phase; playback is left stopped. */
    method HandlePhaseClick(i: nat)
      requires Valid() && i < |SwingPhases|
      modifies this
      ensures Valid()
      ensures sliderValue == 100.0 * Position(i) && activePhase == Some(i) && !isPlaying
      ensures proTime == if hasProVideo && proDuration > 0.0 then Position(i) * proDuration else old(proTime)
      ensures personalTime == if hasPersonalVideo && personalDuration > 0.0 then Position(i) * personalDuration else old(personalTime)
      ensures proDuration == old(proDuration) && personalDuration == old(personalDuration)
    {
      PhasePositionsIncreasing();
      var position := Position(i) * 100.0;
      sliderValue := position;
      SyncVideosToSlider(position);
      activePhase := Some(i);
      if isPlaying {
        isPlaying := false;
      }
    }

    /** `togglePlay`: pause with the slider where it is, or play, first
      rewinding to the start when the slider is at 99 or beyond. */
    method TogglePlay()
      requires Valid()
      modifies this
      ensures Valid()
      ensures isPlaying == !old(isPlaying)
      ensures old(isPlaying) ==> sliderValue == old(sliderValue) && activePhase == old(activePhase)
      ensures !old(isPlaying) && old(sliderValue) >= 99.0 ==> sliderValue == 0.0 && activePhase == Some(0)
      ensures !old(isPlaying) && old(sliderValue) < 99.0 ==> sliderValue == old(sliderValue) && activePhase == old(activePhase)
      ensures !old(isPlaying) && old(sliderValue) >= 99.0 ==>
        proTime == (if hasProVideo && proDuration > 0.0 then 0.0 else old(proTime)) &&
        personalTime == (if hasPersonalVideo && personalDuration > 0.0 then 0.0 else old(personalTime))
      ensures old(isPlaying) || old(sliderValue) < 99.0 ==>
        proTime == old(proTime) && personalTime == old(personalTime)
      ensures proDuration == old(proDuration) && personalDuration == old(personalDuration)
    {
      if isPlaying {
        isPlaying := false;
      } else {
        if sliderValue >= 99.0 {
          sliderValue := 0.0;
          SyncVideosToSlider(0.0);
        }
        isPlaying := true;
      }
    }

    /** `handleReset`: back to the start, stopped. */
    method HandleReset()
      requires Valid()
      modifies this
      ensures Valid()
      ensures sliderValue == 0.0 && !isPlaying && activePhase == Some(0)
      ensures proTime == if hasProVideo && proDuration > 0.0 then 0.0 else old(proTime)
      ensures personalTime == if hasPersonalVideo && personalDuration > 0.0 then 0.0 else old(personalTime)
      ensures proDuration == old(proDuration) && personalDuration == old(personalDuration)
    {
      sliderValue := 0.0;
      SyncVideosToSlider(0.0);
      isPlaying := false;
    }

    /** The duration the animation loop measures progress against: the pro
      video's when known (non-zero), else the personal one's. */
    function ReferenceDuration(): real
      reads this
    {
      if proDuration != 0.0 then proDuration else personalDuration
    }

    /** One `updateSlider` frame, where `refTime` is the time the reference
      video (the pro video when shown, else the personal one) has reached.
      While playing with a shown video of known length, the slider follows
      the progress capped at 100 and playback stops at the end; otherwise
      nothing changes. */
    method AnimationFrame(refTime: real)
      requires Valid() && refTime >= 0.0
      modifies this
      ensures Valid()
      ensures var d := old(ReferenceDuration());
        if old(isPlaying) && (hasProVideo || hasPersonalVideo) && d > 0.0 then
          var progress := refTime / d * 100.0;
          && sliderValue == (if progress < 100.0 then progress else 100.0)
          && activePhase == Some(PhaseIndexAt(progress / 100.0))
          && isPlaying == (progress < 100.0)
        else
          sliderValue == old(sliderValue) && activePhase == old(activePhase) && isPlaying == old(isPlaying)
      ensures proDuration == old(proDuration) && personalDuration == old(personalDuration)
      ensures proTime == old(proTime) && personalTime == old(personalTime)
    {
      if !isPlaying {
        return;
      }
      var refDuration := ReferenceDuration();
      if (hasProVideo || hasPersonalVideo) && refDuration > 0.0 {
        var progress := refTime / refDuration * 100.0;
        sliderValue := if progress < 100.0 then progress else 100.0;
        activePhase := Some(PhaseIndexAt(progress / 100.0));
        if progress >= 100.0 {
          isPlaying := false;
          return;
        }
      }
    }
  }
}
