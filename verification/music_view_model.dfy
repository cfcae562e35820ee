/**
 * The player's control logic: how detected gestures, the repeat loop's ticks
 * and the player's buttons change the playback state, and which commands
 * they send to the audio engine.
 *
 * A repeat job is the coroutine the view model launches for a held
 * repeatable gesture. Its loop body runs once when it starts; each later
 * pass of the loop, after its 300 ms wait, is a `RepeatTick` event. Pitch
 * is kept in tenths.
 */
module MusicViewModel {
  import opened Nullable
  import opened TrackData
  import opened GestureRecognizer
  import Audio = AudioController
  import Decimal

  const MinPitch: nat := 4
  const MaxPitch: nat := 20
  const InitialPitch: nat := 10
  const PitchStep: nat := 2

  /** What a repeat job does on each pass of its loop. */
  datatype RepeatAction = VolumeUp | VolumeDown | PitchUp | PitchDown

  /** The four gestures that drive a repeat job while held. */
  predicate IsRepeatable(g: GestureType) {
    g == ThumbUp || g == ThumbDown || g == PointingUp || g == Victory
  }

  function ActionOf(g: GestureType): RepeatAction
    requires IsRepeatable(g)
  {
    match g
    case ThumbUp => VolumeUp
    case ThumbDown => VolumeDown
    case PointingUp => PitchUp
    case Victory => PitchDown
  }

  /** The repeat job that belongs to a last-seen gesture, if any. */
  function JobFor(g: GestureType): Nullable<RepeatAction> {
    if IsRepeatable(g) then NonNull(ActionOf(g)) else Null
  }

  datatype MusicState = MusicState(
    tracks: seq<Track>,
    currentTrack: Nullable<Track>,
    isPlaying: bool,
    pitch: nat,
    message: Nullable<string>,
    lastGesture: GestureType,
    repeatJob: Nullable<RepeatAction>)

  /** The view model before its track list has loaded. */
  const Initial: MusicState := MusicState([], Null, false, InitialPitch, Null, None, Null)

  /** A new state and the commands sent to the audio engine on the way. */
  datatype Step = Step(next: MusicState, emitted: seq<Audio.Command>)

  // ---------------------------------------------------------------------
  // Status messages

  function SelectedText(title: string): string { "Wybrano utwór: " + title }
  const ResumedText: string := "Odtwarzanie wznowione"
  const PausedText: string := "Odtwarzanie zatrzymane"
  const VolumeUpText: string := "Głośność zwiększona"
  const VolumeDownText: string := "Głośność zmniejszona"
  function SwitchedText(title: string): string { "Przełączono na: " + title }
  const LastTrackText: string := "To ostatni utwór na liście"

  /**
   * "Pitch: %.2f" of a pitch given in tenths: the whole part, a '.', the
   * tenths digit and a trailing zero.
   */
  function PitchText(tenths: nat): (r: string)
    ensures |r| >= 11 && r[..7] == "Pitch: "
    ensures r[|r| - 3] == '.' && r[|r| - 1] == '0'
    ensures Decimal.AllDigits(r[7..|r| - 3]) && Decimal.Value(r[7..|r| - 3]) == tenths / 10
    ensures Decimal.IsDigit(r[|r| - 2]) && 10 * Decimal.Value(r[7..|r| - 3]) + Decimal.DigitValue(r[|r| - 2]) == tenths
    ensures tenths < 100 ==> |r| == 11
  {
    var whole := Decimal.FromNat(tenths / 10);
    var tenth := Decimal.FromNat(tenths % 10);
    Decimal.ValueOfFromNat(tenths / 10);
    Decimal.ValueOfFromNat(tenths % 10);
    PitchTextParts(whole, tenth);
    "Pitch: " + whole + "." + tenth + "0"
  }

  lemma PitchTextParts(whole: string, tenth: string)
    requires |whole| >= 1 && |tenth| == 1
    ensures var r := "Pitch: " + whole + "." + tenth + "0";
      && |r| == |whole| + 10 && r[..7] == "Pitch: "
      && r[7..|r| - 3] == whole && r[|r| - 3] == '.' && r[|r| - 2] == tenth[0] && r[|r| - 1] == '0'
  {
    var r := "Pitch: " + whole + "." + tenth + "0";
    assert r[7..|r| - 3] == whole;
  }

  // ---------------------------------------------------------------------
  // Player operations

  /** Selects a track: loads it but keeps the playing flag as it was. */
  function SelectTrack(s: MusicState, track: Track): (t: Step)
    ensures t.next.currentTrack == NonNull(track)
    ensures t.next.isPlaying == s.isPlaying
    ensures t.next.message == NonNull(SelectedText(track.title))
    ensures t.next.(currentTrack := s.currentTrack, message := s.message) == s
    ensures t.emitted == [Audio.LoadTrack(track)]
  {
    Step(s.(currentTrack := NonNull(track), message := NonNull(SelectedText(track.title))),
         [Audio.LoadTrack(track)])
  }

  function Play(s: MusicState): (t: Step)
    ensures t.next.isPlaying
    ensures t.next.(isPlaying := s.isPlaying, message := s.message) == s
    ensures t.emitted == [Audio.Play]
  {
    Step(s.(isPlaying := true, message := NonNull(ResumedText)), [Audio.Play])
  }

  function Pause(s: MusicState): (t: Step)
    ensures !t.next.isPlaying
    ensures t.next.(isPlaying := s.isPlaying, message := s.message) == s
    ensures t.emitted == [Audio.Pause]
  {
    Step(s.(isPlaying := false, message := NonNull(PausedText)), [Audio.Pause])
  }

  /** Flips the playing flag, pausing a playing player and resuming a stopped one. */
  function TogglePlayPause(s: MusicState): (t: Step)
    ensures t.next.isPlaying == !s.isPlaying
    ensures t.next.(isPlaying := s.isPlaying, message := s.message) == s
    ensures t.emitted == (if s.isPlaying then [Audio.Pause] else [Audio.Play])
  {
    if s.isPlaying then Pause(s) else Play(s)
  }

  function IncreaseVolume(s: MusicState): (t: Step)
    ensures t.next == s.(message := NonNull(VolumeUpText))
    ensures t.emitted == [Audio.IncreaseVolume]
  {
    Step(s.(message := NonNull(VolumeUpText)), [Audio.IncreaseVolume])
  }

  function DecreaseVolume(s: MusicState): (t: Step)
    ensures t.next == s.(message := NonNull(VolumeDownText))
    ensures t.emitted == [Audio.DecreaseVolume]
  {
    Step(s.(message := NonNull(VolumeDownText)), [Audio.DecreaseVolume])
  }

  /** Raises the pitch by one step, saturating at the maximum. */
  function IncreasePitch(s: MusicState): (t: Step)
    ensures t.next.pitch <= MaxPitch
    ensures s.pitch <= MaxPitch ==> s.pitch <= t.next.pitch <= s.pitch + PitchStep
    ensures t.next.pitch == s.pitch + PitchStep || t.next.pitch == MaxPitch
    ensures t.next == s.(pitch := t.next.pitch, message := NonNull(PitchText(t.next.pitch)))
    ensures t.emitted == [Audio.AdjustPitch(t.next.pitch)]
  {
    var p := if s.pitch + PitchStep <= MaxPitch then s.pitch + PitchStep else MaxPitch;
    Step(s.(pitch := p, message := NonNull(PitchText(p))), [Audio.AdjustPitch(p)])
  }

  /** Lowers the pitch by one step, saturating at the minimum. */
  function DecreasePitch(s: MusicState): (t: Step)
    ensures t.next.pitch >= MinPitch
    ensures s.pitch >= MinPitch ==> s.pitch - PitchStep <= t.next.pitch <= s.pitch
    ensures t.next.pitch == s.pitch - PitchStep || t.next.pitch == MinPitch
    ensures t.next == s.(pitch := t.next.pitch, message := NonNull(PitchText(t.next.pitch)))
    ensures t.emitted == [Audio.AdjustPitch(t.next.pitch)]
  {
    var p := if s.pitch >= MinPitch + PitchStep then s.pitch - PitchStep else MinPitch;
    Step(s.(pitch := p, message := NonNull(PitchText(p))), [Audio.AdjustPitch(p)])
  }

  /** Inside the range, one step up and one step down cancel out. */
  lemma PitchStepsCancel(s: MusicState)
    requires MinPitch <= s.pitch <= MaxPitch - PitchStep
    ensures DecreasePitch(IncreasePitch(s).next).next.pitch == s.pitch
    ensures IncreasePitch(DecreasePitch(s.(pitch := s.pitch + PitchStep)).next).next.pitch == s.pitch + PitchStep
  {
  }

  /** One pass of a repeat job's loop. */
  function ApplyAction(s: MusicState, a: RepeatAction): (t: Step)
    ensures t.next.(pitch := s.pitch, message := s.message) == s
    ensures |t.emitted| == 1
    ensures a.PitchUp? ==> t == IncreasePitch(s)
    ensures a.PitchDown? ==> t == DecreasePitch(s)
    ensures a.VolumeUp? || a.VolumeDown? ==> t.next.pitch == s.pitch
  {
    match a
    case VolumeUp => IncreaseVolume(s)
    case VolumeDown => DecreaseVolume(s)
    case PitchUp => IncreasePitch(s)
    case PitchDown => DecreasePitch(s)
  }

  /** Cancels the repeat job, if any. */
  function StopRepeating(s: MusicState): (r: MusicState)
    ensures r.repeatJob.Null?
    ensures r.(repeatJob := s.repeatJob) == s
  {
    s.(repeatJob := Null)
  }

  /**
   * Starts a repeat job unless one is already running; a new job makes its
   * first pass at once.
   */
  function StartRepeating(s: MusicState, a: RepeatAction): (t: Step)
    ensures s.repeatJob.NonNull? ==> t == Step(s, [])
    ensures s.repeatJob.Null? ==> t.next.repeatJob == NonNull(a) && t == ApplyAction(s.(repeatJob := NonNull(a)), a)
  {
    if s.repeatJob.NonNull? then Step(s, [])
    else ApplyAction(s.(repeatJob := NonNull(a)), a)
  }

  /** Whether a listed track has the same id as the current track. */
  predicate SameIdAsCurrent(t: Track, current: Nullable<Track>) {
    current.NonNull? && t.id == current.value.id
  }

  /** `indexOfFirst`: the first position whose id is the current track's, or -1. */
  function IndexOfCurrent(tracks: seq<Track>, current: Nullable<Track>): (i: int)
    ensures -1 <= i < |tracks|
    ensures i == -1 <==> forall k :: 0 <= k < |tracks| ==> !SameIdAsCurrent(tracks[k], current)
    ensures i >= 0 ==> SameIdAsCurrent(tracks[i], current)
    ensures i >= 0 ==> forall k :: 0 <= k < i ==> !SameIdAsCurrent(tracks[k], current)
    decreases |tracks|
  {
    if |tracks| == 0 then -1
    else if SameIdAsCurrent(tracks[0], current) then 0
    else
      var j := IndexOfCurrent(tracks[1..], current);
      if j == -1 then -1 else j + 1
  }

  /**
   * Moves to the track after the current one and starts playing it; on the
   * last track (or on an empty list with no current track) only says so; if
   * the current track is not in a non-empty list, does nothing.
   */
  function SkipToNextTrack(s: MusicState): (t: Step)
    ensures var i := IndexOfCurrent(s.tracks, s.currentTrack);
      && (0 <= i < |s.tracks| - 1 ==>
            && t.next == s.(currentTrack := NonNull(s.tracks[i + 1]), isPlaying := true,
                            message := NonNull(SwitchedText(s.tracks[i + 1].title)))
            && t.emitted == [Audio.LoadTrack(s.tracks[i + 1]), Audio.Play])
      && (i == |s.tracks| - 1 ==> t == Step(s.(message := NonNull(LastTrackText)), []))
      && (i == -1 && |s.tracks| > 0 ==> t == Step(s, []))
    ensures t.next.(currentTrack := s.currentTrack, isPlaying := s.isPlaying, message := s.message) == s
  {
    var i := IndexOfCurrent(s.tracks, s.currentTrack);
    if i != -1 && i < |s.tracks| - 1 then
      var next := s.tracks[i + 1];
      Step(s.(currentTrack := NonNull(next), isPlaying := true, message := NonNull(SwitchedText(next.title))),
           [Audio.LoadTrack(next), Audio.Play])
    else if i == |s.tracks| - 1 then
      Step(s.(message := NonNull(LastTrackText)), [])
    else
      Step(s, [])
  }

  /**
   * Reacts to one reported gesture. A gesture other than the last one, or no
   * gesture, cancels the repeat job and becomes the last gesture before it is
   * acted on.
   */
  function HandleGesture(s: MusicState, g: GestureType): (t: Step)
    ensures t.next.lastGesture == g
    ensures t.next.tracks == s.tracks
  {
    var s1 := if g != s.lastGesture || g == None then StopRepeating(s).(lastGesture := g) else s;
    match g
    case ThumbUp => StartRepeating(s1, VolumeUp)
    case ThumbDown => StartRepeating(s1, VolumeDown)
    case PointingUp => StartRepeating(s1, PitchUp)
    case Victory => StartRepeating(s1, PitchDown)
    case OpenPalm =>
      var s2 := StopRepeating(s1);
      if !s2.isPlaying then Play(s2) else Step(s2, [])
    case ClosedFist =>
      var s2 := StopRepeating(s1);
      if s2.isPlaying then Pause(s2) else Step(s2, [])
    case None => Step(StopRepeating(s1), [])
    case ILoveYou => SkipToNextTrack(s1)
  }

  /** One pass of the running repeat job's loop, if a job is running. */
  function Tick(s: MusicState): (t: Step)
    ensures s.repeatJob.Null? ==> t == Step(s, [])
    ensures s.repeatJob.NonNull? ==> t == ApplyAction(s, s.repeatJob.value)
    ensures t.next.(pitch := s.pitch, message := s.message) == s
  {
    if s.repeatJob.NonNull? then ApplyAction(s, s.repeatJob.value) else Step(s, [])
  }

  /** Installs a loaded track list and selects its first track, if any. */
  function LoadTracks(s: MusicState, list: seq<Track>): (t: Step)
    ensures t.next.tracks == list
    ensures |list| > 0 ==> t.next.currentTrack == NonNull(list[0])
    ensures |list| == 0 ==> t == Step(s.(tracks := list), [])
    ensures t.next.isPlaying == s.isPlaying
    ensures |list| > 0 ==>
      && t.emitted == [Audio.LoadTrack(list[0])]
      && t.next.message == NonNull(SelectedText(list[0].title))
      && t.next.(currentTrack := s.currentTrack, message := s.message, tracks := s.tracks) == s
  {
    var s1 := s.(tracks := list);
    if |list| > 0 then SelectTrack(s1, list[0]) else Step(s1, [])
  }

  /** The view model right after creation: the SoundHelix list is loaded. */
  function Start(): (t: Step)
    ensures t.next.tracks == GetTracks()
    ensures t.next.currentTrack == NonNull(GetTracks()[0])
    ensures !t.next.isPlaying && t.next.repeatJob.Null?
  {
    LoadTracks(Initial, GetTracks())
  }

  function ShowMessage(s: MusicState, text: string): (r: MusicState)
    ensures r.message == NonNull(text)
    ensures r.(message := s.message) == s
  {
    s.(message := NonNull(text))
  }

  /** The 3 s clean-up after a skip: clears the message only if nothing replaced it. */
  function MessageTimeout(s: MusicState, text: string): (r: MusicState)
    ensures s.message == NonNull(text) ==> r.message.Null?
    ensures s.message != NonNull(text) ==> r == s
    ensures r.(message := s.message) == s
  {
    if s.message == NonNull(text) then s.(message := Null) else s
  }

  // ---------------------------------------------------------------------
  // Events and runs

  datatype Event =
    | GestureDetected(gesture: GestureType)
    | RepeatTick
    | TrackClicked(track: Track)
    | PlayPauseClicked
    | StatusShown(text: string)
    | StatusExpired(text: string)
    | TracksLoaded(list: seq<Track>)

  function Next(s: MusicState, e: Event): Step {
    match e
    case GestureDetected(g) => HandleGesture(s, g)
    case RepeatTick => Tick(s)
    case TrackClicked(track) => SelectTrack(s, track)
    case PlayPauseClicked => TogglePlayPause(s)
    case StatusShown(text) => Step(ShowMessage(s, text), [])
    case StatusExpired(text) => Step(MessageTimeout(s, text), [])
    case TracksLoaded(list) => LoadTracks(s, list)
  }

  /** Feeds events in order, collecting every command sent. */
  function Run(s: MusicState, events: seq<Event>): Step
    decreases |events|
  {
    if |events| == 0 then Step(s, [])
    else
      var first := Next(s, events[0]);
      var rest := Run(first.next, events[1..]);
      Step(rest.next, first.emitted + rest.emitted)
  }

  // ---------------------------------------------------------------------
  // Properties

  /**
   * The view model's consistency condition: a repeat job runs exactly while
   * the last gesture is repeatable, and it runs that gesture's action; the
   * pitch is an even number of tenths within its bounds.
   */
  predicate Valid(s: MusicState) {
    && s.repeatJob == JobFor(s.lastGesture)
    && MinPitch <= s.pitch <= MaxPitch
    && s.pitch % 2 == 0
  }

  lemma StartValid()
    ensures Valid(Initial)
    ensures Valid(Start().next)
    ensures Initial.pitch == InitialPitch && Initial.lastGesture == None && Initial.repeatJob.Null?
    ensures var r := Start().next;
      r.pitch == InitialPitch && r.lastGesture == None && r.repeatJob.Null?
  {
  }

  lemma HandleGesturePreservesValid(s: MusicState, g: GestureType)
    requires Valid(s)
    ensures Valid(HandleGesture(s, g).next)
  {
    var s1 := if g != s.lastGesture || g == None then StopRepeating(s).(lastGesture := g) else s;
    assert s1.lastGesture == g && s1.pitch == s.pitch;
    assert s1.repeatJob.Null? || s1.repeatJob == JobFor(g);
    if IsRepeatable(g) && s1.repeatJob.Null? {
      ApplyActionKeepsPitchRange(s1.(repeatJob := NonNull(ActionOf(g))), ActionOf(g));
    }
  }

  /** One pass of a job keeps an even pitch inside 0.4..2.0. */
  lemma ApplyActionKeepsPitchRange(s: MusicState, a: RepeatAction)
    requires MinPitch <= s.pitch <= MaxPitch && s.pitch % 2 == 0
    ensures var p := ApplyAction(s, a).next.pitch;
      MinPitch <= p <= MaxPitch && p % 2 == 0
  {
  }

  lemma NextPreservesValid(s: MusicState, e: Event)
    requires Valid(s)
    ensures Valid(Next(s, e).next)
  {
    match e
    case GestureDetected(g) => HandleGesturePreservesValid(s, g);
    case _ =>
  }

  /** Every state reached from a consistent one is consistent. */
  lemma {:induction false} RunPreservesValid(s: MusicState, events: seq<Event>)
    requires Valid(s)
    ensures Valid(Run(s, events).next)
    decreases |events|
  {
    if |events| > 0 {
      NextPreservesValid(s, events[0]);
      RunPreservesValid(Next(s, events[0]).next, events[1..]);
    }
  }

  /**
   * After any events following start-up there is at most one repeat job, it
   * exists only while the last gesture is one of the four repeatable ones and
   * it repeats that gesture's action, and the pitch lies in 0.4..2.0.
   */
  lemma ReachableStatesKeepOneMatchingJob(events: seq<Event>)
    ensures var r := Run(Start().next, events).next;
      && (r.repeatJob.NonNull? ==> IsRepeatable(r.lastGesture) && r.repeatJob.value == ActionOf(r.lastGesture))
      && MinPitch <= r.pitch <= MaxPitch
  {
    StartValid();
    RunPreservesValid(Start().next, events);
  }

  /**
   * A gesture other than the last one, or no gesture, cancels the running job
   * first: afterwards the only job is a fresh one for the new gesture, which
   * has made exactly its first pass.
   */
  lemma HandleGestureOnChange(s: MusicState, g: GestureType)
    requires g != s.lastGesture || g == None
    ensures var t := HandleGesture(s, g);
      && t.next.repeatJob == JobFor(g)
      && (IsRepeatable(g) ==> t == ApplyAction(s.(lastGesture := g, repeatJob := JobFor(g)), ActionOf(g)))
  {
  }

  /** Holding a repeatable gesture keeps its job and starts no second one. */
  lemma HandleGestureHeldRepeatable(s: MusicState, g: GestureType)
    requires IsRepeatable(g) && g == s.lastGesture && s.repeatJob.NonNull?
    ensures HandleGesture(s, g) == Step(s, [])
  {
  }

  /**
   * The pitch after `k` passes of an action, starting at `p`: a pitch job
   * moves one step per pass towards its bound and then stays there; a volume
   * job leaves the pitch alone.
   */
  function PitchAfter(a: RepeatAction, p: nat, k: nat): nat {
    if k == 0 then p
    else
      match a
      case PitchUp => if p + PitchStep * k <= MaxPitch then p + PitchStep * k else MaxPitch
      case PitchDown => if p >= MinPitch + PitchStep * k then p - PitchStep * k else MinPitch
      case _ => p
  }

  /** The command the `k`-th pass (counting from 1) of an action sends, starting at pitch `p`. */
  function PassCommand(a: RepeatAction, p: nat, k: nat): Audio.Command {
    match a
    case VolumeUp => Audio.IncreaseVolume
    case VolumeDown => Audio.DecreaseVolume
    case _ => Audio.AdjustPitch(PitchAfter(a, p, k))
  }

  /** One pass followed by `k` more is `k + 1` passes. */
  lemma PitchAfterStep(a: RepeatAction, p: nat, k: nat)
    ensures PitchAfter(a, PitchAfter(a, p, 1), k) == PitchAfter(a, p, k + 1)
  {
  }

  function Ticks(n: nat): (r: seq<Event>)
    ensures |r| == n
    ensures forall i :: 0 <= i < n ==> r[i] == RepeatTick
  {
    seq(n, i => RepeatTick)
  }

  lemma ApplyActionSends(s: MusicState, a: RepeatAction)
    ensures ApplyAction(s, a).emitted == [PassCommand(a, s.pitch, 1)]
    ensures ApplyAction(s, a).next.pitch == PitchAfter(a, s.pitch, 1)
  {
  }

  /** While a job runs, `n` ticks make exactly `n` passes of its action and keep the job. */
  lemma {:induction false} TicksFireJob(s: MusicState, n: nat)
    requires s.repeatJob.NonNull?
    ensures var r := Run(s, Ticks(n));
      && |r.emitted| == n
      && (forall k :: 0 <= k < n ==> r.emitted[k] == PassCommand(s.repeatJob.value, s.pitch, k + 1))
      && r.next.pitch == PitchAfter(s.repeatJob.value, s.pitch, n)
      && r.next.(pitch := s.pitch, message := s.message) == s
    decreases n
  {
    TicksFollowPasses(s, n);
    if n > 0 {
      var first := Next(s, RepeatTick);
      ApplyActionSends(s, s.repeatJob.value);
      assert Ticks(n)[1..] == Ticks(n - 1);
      TicksFireJob(first.next, n - 1);
    }
  }

  /** The `k`-th of `n` ticks sends the `k`-th pass's command, and the pitch ends after `n` passes. */
  lemma {:induction false} TicksFollowPasses(s: MusicState, n: nat)
    requires s.repeatJob.NonNull?
    ensures var r := Run(s, Ticks(n));
      && |r.emitted| == n
      && (forall k :: 0 <= k < n ==> r.emitted[k] == PassCommand(s.repeatJob.value, s.pitch, k + 1))
      && r.next.pitch == PitchAfter(s.repeatJob.value, s.pitch, n)
    decreases n
  {
    if n > 0 {
      var a := s.repeatJob.value;
      var first := Next(s, RepeatTick);
      assert first == ApplyAction(s, a);
      assert first.next.repeatJob == s.repeatJob;
      ApplyActionSends(s, a);
      assert Ticks(n)[1..] == Ticks(n - 1);
      TicksFollowPasses(first.next, n - 1);
      var rest := Run(first.next, Ticks(n - 1));
      var r := Run(s, Ticks(n));
      assert r.emitted == first.emitted + rest.emitted;
      forall k | 0 <= k < n
        ensures r.emitted[k] == PassCommand(a, s.pitch, k + 1)
      {
        if k > 0 {
          PitchAfterStep(a, s.pitch, k);
        }
      }
      PitchAfterStep(a, s.pitch, n - 1);
    }
  }

  /**
   * A newly started job makes one pass before its first wait and one more on
   * every tick; no second job appears meanwhile.
   */
  lemma StartedJobFiresOncePerTick(s: MusicState, g: GestureType, n: nat)
    requires IsRepeatable(g) && g != s.lastGesture
    ensures var started := HandleGesture(s, g);
      var after := Run(started.next, Ticks(n));
      && |started.emitted| == 1
      && started.emitted == [PassCommand(ActionOf(g), s.pitch, 1)]
      && |after.emitted| == n
      && (forall k :: 0 <= k < n ==> after.emitted[k] == PassCommand(ActionOf(g), s.pitch, k + 2))
      && after.next.pitch == PitchAfter(ActionOf(g), s.pitch, n + 1)
      && after.next.repeatJob == NonNull(ActionOf(g))
  {
    var a := ActionOf(g);
    var started := HandleGesture(s, g);
    HandleGestureOnChange(s, g);
    ApplyActionSends(s.(lastGesture := g, repeatJob := JobFor(g)), a);
    TicksFireJob(started.next, n);
    var after := Run(started.next, Ticks(n));
    forall k | 0 <= k < n
      ensures after.emitted[k] == PassCommand(a, s.pitch, k + 2)
    {
      PitchAfterStep(a, s.pitch, k + 1);
    }
    PitchAfterStep(a, s.pitch, n);
  }

  /** Without a job, ticks do nothing at all. */
  lemma {:induction false} TicksWithoutJob(s: MusicState, n: nat)
    requires s.repeatJob.Null?
    ensures Run(s, Ticks(n)) == Step(s, [])
    decreases n
  {
    if n > 0 {
      assert Ticks(n)[1..] == Ticks(n - 1);
      TicksWithoutJob(s, n - 1);
    }
  }

  /** An open palm leaves the player playing with no job; holding it does nothing more. */
  lemma OpenPalmPlays(s: MusicState)
    ensures var t := HandleGesture(s, OpenPalm);
      && t.next.isPlaying && t.next.repeatJob.Null?
      && t.emitted == (if s.isPlaying then [] else [Audio.Play])
      && t.next.(isPlaying := s.isPlaying, message := s.message, lastGesture := s.lastGesture, repeatJob := s.repeatJob) == s
      && HandleGesture(t.next, OpenPalm) == Step(t.next, [])
  {
  }

  /** A closed fist leaves the player paused with no job; holding it does nothing more. */
  lemma ClosedFistPauses(s: MusicState)
    ensures var t := HandleGesture(s, ClosedFist);
      && !t.next.isPlaying && t.next.repeatJob.Null?
      && t.emitted == (if s.isPlaying then [Audio.Pause] else [])
      && t.next.(isPlaying := s.isPlaying, message := s.message, lastGesture := s.lastGesture, repeatJob := s.repeatJob) == s
      && HandleGesture(t.next, ClosedFist) == Step(t.next, [])
  {
  }

  /** No gesture cancels the job, changes nothing else, and sustaining it changes nothing. */
  lemma NoGestureStops(s: MusicState)
    ensures var t := HandleGesture(s, None);
      && t == Step(s.(lastGesture := None, repeatJob := Null), [])
      && HandleGesture(t.next, None) == t
  {
  }

  /**
   * The love sign skips to the next track on every observation, held or not,
   * and leaves no job running.
   */
  lemma ILoveYouSkipsEveryTime(s: MusicState)
    requires Valid(s)
    ensures var t := HandleGesture(s, ILoveYou);
      && t.next.repeatJob.Null? && t.next.lastGesture == ILoveYou
      && t.emitted == SkipToNextTrack(s).emitted
      && t.next.(lastGesture := s.lastGesture, repeatJob := s.repeatJob) == SkipToNextTrack(s).next
  {
  }

  /** From a track that is first with its id, skipping moves one position on, or stops at the end. */
  lemma SkipFromPosition(s: MusicState, i: nat)
    requires i < |s.tracks| && s.currentTrack == NonNull(s.tracks[i])
    requires forall k :: 0 <= k < i ==> s.tracks[k].id != s.tracks[i].id
    ensures var t := SkipToNextTrack(s).next;
      && (i < |s.tracks| - 1 ==> t.currentTrack == NonNull(s.tracks[i + 1]) && t.isPlaying)
      && (i == |s.tracks| - 1 ==> t.currentTrack == s.currentTrack && t.isPlaying == s.isPlaying
                                  && t.message == NonNull(LastTrackText))
  {
    assert SameIdAsCurrent(s.tracks[i], s.currentTrack);
    assert IndexOfCurrent(s.tracks, s.currentTrack) == i;
  }

  /** With an empty list the index and the last position are both -1: the end-of-list message. */
  lemma SkipOnEmptyList(s: MusicState)
    requires s.tracks == []
    ensures SkipToNextTrack(s) == Step(s.(message := NonNull(LastTrackText)), [])
  {
  }

  /** A current track missing from a non-empty list makes skipping do nothing. */
  lemma SkipWhenCurrentMissing(s: MusicState)
    requires |s.tracks| > 0
    requires forall k :: 0 <= k < |s.tracks| ==> !SameIdAsCurrent(s.tracks[k], s.currentTrack)
    ensures SkipToNextTrack(s) == Step(s, [])
  {
  }

  /** On the SoundHelix catalogue a skip from the k-th song plays the next one. */
  lemma SkipThroughCatalogue(s: MusicState, k: nat)
    requires s.tracks == GetTracks() && k < |s.tracks| - 1
    requires s.currentTrack == NonNull(s.tracks[k])
    ensures SkipToNextTrack(s).next.currentTrack == NonNull(GetTracks()[k + 1])
  {
    forall j | 0 <= j < k
      ensures s.tracks[j].id != s.tracks[k].id
    {
      GetTracksIdsDistinct(j, k);
    }
    SkipFromPosition(s, k);
  }

  /** Toggling twice restores the playing flag. */
  lemma TogglePlayPauseTwice(s: MusicState)
    ensures TogglePlayPause(TogglePlayPause(s).next).next.isPlaying == s.isPlaying
    ensures TogglePlayPause(TogglePlayPause(s).next).emitted ==
            (if s.isPlaying then [Audio.Play] else [Audio.Pause])
    ensures var r := Run(s, [PlayPauseClicked, PlayPauseClicked]);
      && r.next.(message := s.message) == s
      && r.emitted == (if s.isPlaying then [Audio.Pause, Audio.Play] else [Audio.Play, Audio.Pause])
  {
  }
}
