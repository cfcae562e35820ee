/**
 * The recogniser and the view model wired together as the music tab wires
 * them: every classifier result is normalised and its one report goes
 * straight to `HandleGesture`; the repeat job's ticks arrive in between.
 */
module Pipeline {
  import opened Nullable
  import opened GestureRecognizer
  import opened MusicViewModel
  import Audio = AudioController

  datatype AppState = AppState(recognizer: RecognizerState, music: MusicState)

  datatype Input =
    | ClassifierResult(result: Nullable<RecognizerResult>)
    | JobTick

  datatype Outcome = Outcome(next: AppState, emitted: seq<Audio.Command>)

  /** One input: a result goes through the gate to the view model; a tick runs the job. */
  function Feed(a: AppState, i: Input): (o: Outcome)
    ensures i.ClassifierResult? ==>
      var c := Candidate(i.result);
      var t := HandleGesture(a.music, Gate(c).gesture);
      && o.next.music == t.next
      && o.emitted == t.emitted
      && o.next.recognizer == RecognizerState(c.gesture, c.confidence)
    ensures i.JobTick? ==>
      && o.next.recognizer == a.recognizer
      && o.next.music == Tick(a.music).next
      && o.emitted == Tick(a.music).emitted
  {
    match i
    case ClassifierResult(result) =>
      var h := HandleResult(a.recognizer, result);
      var t := HandleGesture(a.music, h.reported.gesture);
      Outcome(AppState(h.next, t.next), t.emitted)
    case JobTick =>
      var t := Tick(a.music);
      Outcome(a.(music := t.next), t.emitted)
  }

  function FeedAll(a: AppState, inputs: seq<Input>): Outcome
    decreases |inputs|
  {
    if |inputs| == 0 then Outcome(a, [])
    else
      var first := Feed(a, inputs[0]);
      var rest := FeedAll(first.next, inputs[1..]);
      Outcome(rest.next, first.emitted + rest.emitted)
  }

  /** An input the gate turns away: a result whose candidate is not above the threshold, or a tick. */
  predicate Unconvincing(i: Input) {
    i.ClassifierResult? ==> Candidate(i.result).confidence <= Threshold
  }

  /**
   * A classifier that is never confident leaves an idle player idle: no job
   * ever starts, no command is sent, and only the last-gesture slot changes.
   */
  lemma {:induction false} UnconvincingStreamStaysIdle(a: AppState, inputs: seq<Input>)
    requires a.music.repeatJob.Null?
    requires forall k :: 0 <= k < |inputs| ==> Unconvincing(inputs[k])
    ensures var o := FeedAll(a, inputs);
      && o.emitted == []
      && o.next.music.repeatJob.Null?
      && o.next.music.(lastGesture := a.music.lastGesture) == a.music
    decreases |inputs|
  {
    if |inputs| > 0 {
      var first := Feed(a, inputs[0]);
      if inputs[0].ClassifierResult? {
        assert Gate(Candidate(inputs[0].result)) == Nothing;
        NoGestureStops(a.music);
      }
      UnconvincingStreamStaysIdle(first.next, inputs[1..]);
    }
  }

  /** A single confident result for one known label. */
  function Seen(name: string, score: int): Input {
    ClassifierResult(NonNull(RecognizerResult([[Category(NonNull(name), score)]])))
  }

  /**
   * Thumb up twice, nothing, then thumb down: the volume goes up once, then
   * down once, and the one job left is the thumb-down job.
   */
  lemma ThumbUpThenThumbDownScenario(m: MusicState)
    requires m.lastGesture == None && m.repeatJob.Null?
    ensures var o := FeedAll(AppState(InitialRecognizer, m),
        [Seen("thumb_up", 900_000), Seen("thumb_up", 900_000), ClassifierResult(Null), Seen("thumb_down", 850_000)]);
      && o.emitted == [Audio.IncreaseVolume, Audio.DecreaseVolume]
      && o.next.music.repeatJob == NonNull(VolumeDown)
  {
    MapToGestureTypeOfLabel(ThumbUp, "thumb_up");
    MapToGestureTypeOfLabel(ThumbDown, "thumb_down");
  }

  /**
   * Thumb up, thumb down, thumb up for one result each: every change cancels
   * the previous job, and the thumb-up job is the only one left.
   */
  lemma AlternationScenario(m: MusicState)
    requires m.lastGesture == None && m.repeatJob.Null?
    ensures var o := FeedAll(AppState(InitialRecognizer, m),
        [Seen("thumb_up", 900_000), Seen("thumb_down", 900_000), Seen("thumb_up", 900_000)]);
      && o.emitted == [Audio.IncreaseVolume, Audio.DecreaseVolume, Audio.IncreaseVolume]
      && o.next.music.repeatJob == NonNull(VolumeUp)
  {
    MapToGestureTypeOfLabel(ThumbUp, "thumb_up");
    MapToGestureTypeOfLabel(ThumbDown, "thumb_down");
  }
}
