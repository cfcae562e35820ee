# Gestural Music App: a Dafny model of the gesture-to-playback control logic

The Gestural Music App is an Android music player that the user controls with hand
gestures seen by the camera. This project models, as pure Dafny functions over
immutable state, the parts of the app that make decisions:

- **Gesture normalisation** (`GestureRecognizer`). The classifier's result is reduced to
  the first category of the first hand. Its name is mapped, ignoring case, to a closed
  set of gestures. The pair is gated on confidence > 0.7 and reported to the listener
  exactly once per result. The module also covers the NV21 byte layout a camera frame
  is packed into.
- **The player's control state machine** (`MusicViewModel`). It covers the last gesture
  and the single repeat job (the coroutine that repeats volume or pitch changes while a
  gesture is held). Play and pause are level-set. The love-sign gesture skips through
  the track list. Pitch is kept in tenths and saturates at 0.4 and 2.0. Commands to
  the audio engine are recorded as `AudioController.Command` values.
- **The two composed** (`Pipeline`). Classifier results and repeat-loop ticks are fed
  through both stages.
- **Small helpers.** `formatDuration` and the recording file name (`VoiceRecording`).
  The fixed SoundHelix catalogue and the TheAudioDB track conversion (`TrackData`).
  Decimal rendering of numbers (`Decimal`). Kotlin nullables (`Nullable`).
- **Sign-in and navigation decisions.** Login validation, states and failure messages
  (`LoginViewModel`). The registration form's submit rule (`RegisterForm`). The main
  screen's choice between login screen, register screen and tabs (`MainScreen`).

Modelling choices:

- Confidence is a fixed-point integer where `1_000_000` stands for 1.0, so the
  threshold 0.7 is `700_000`. Pitch is an integer number of tenths: it starts at 10,
  moves in steps of 2 and stays within 4..20.
- A repeat job's loop body runs once when the job starts. Every later pass, after its
  300 ms wait, is an explicit `RepeatTick` event.
- The status message's 3 s clean-up after a skip is an explicit `StatusExpired(text)`
  event. It clears the message only if the message is still `text`.
- Calls into the sign-in service become inputs: an `AuthOutcome` for login, an error
  text for registration, and "is a user present" for the tab click.

The app has no separate debouncer and no started/ended gesture events. The view model
compares each reported gesture with the last one it saw (MusicViewModel.kt:123-126).
The model does exactly that. As a result, a held love-sign gesture skips a track on
every report. Skipping also queries nothing: the view model looks the current track
up in its own list, and it sets the end-of-list message itself.

## Model

| member | source | states |
|---|---|---|
| TrackData.GetTracks | app/src/main/java/com/example/gestural_music_app/data/SoundHelixRepository.kt:5-21 | exactly 10 tracks; track k has id k+1 in decimal, title "Song k+1", artist "SoundHelix", the SoundHelix-Song-(k+1).mp3 stream URL, and a null cover |
| TrackData.GetTracksIdsDistinct | app/src/main/java/com/example/gestural_music_app/data/SoundHelixRepository.kt:9-12 | no two catalogue tracks share an id, so a lookup by id is unambiguous |
| TrackData.GetTracksIdDenotesPosition | app/src/main/java/com/example/gestural_music_app/data/SoundHelixRepository.kt:9-12 | each id is a digit string whose value is the track's 1-based position |
| TrackData.ToAppTrack | app/src/main/java/com/example/gestural_music_app/data/ApiResponse.kt:41-49 | id, title and artist are copied; streamUrl is strMusicVid, or "" when that is null; coverUrl is strTrackThumb, null included |
| TrackData.ToAppTrackIgnoresAlbumAndDuration | app/src/main/java/com/example/gestural_music_app/data/ApiResponse.kt:31-49 | strAlbum and intDuration do not affect the converted track |
| TrackData.ToAppTrackDeterminedByCopiedFields | app/src/main/java/com/example/gestural_music_app/data/ApiResponse.kt:41-49 | two records convert to the same track iff they agree on the five copied fields, with a null video URL counting as "" |
| GestureRecognizer.MapToGestureType | app/src/main/java/com/example/gestural_music_app/gesture/GestureRecognizer.kt:83-93 | the result is not NONE iff the lower-cased name is one of the seven known labels, and then the result is the gesture that label names |
| GestureRecognizer.MapToGestureTypeOfLabel | app/src/main/java/com/example/gestural_music_app/gesture/GestureRecognizer.kt:85-91 | each gesture's label, in any letter case, maps back to that gesture |
| GestureRecognizer.MapToGestureTypeIgnoresCase | app/src/main/java/com/example/gestural_music_app/gesture/GestureRecognizer.kt:83-84 | names equal up to letter case map to the same gesture |
| GestureRecognizer.MapToGestureTypeOfUpper | app/src/main/java/com/example/gestural_music_app/gesture/GestureRecognizer.kt:83-84 | upper-casing a name never changes its gesture |
| GestureRecognizer.MapToGestureTypeOfNoneLabel | app/src/main/java/com/example/gestural_music_app/gesture/GestureRecognizer.kt:92 | the text "none" (in any case) maps to NONE like any unknown text |
| GestureRecognizer.Candidate | app/src/main/java/com/example/gestural_music_app/gesture/GestureRecognizer.kt:68-70 | a null result, no hands or an empty first hand give (NONE, 0); otherwise the first category of the first hand gives the mapped name (NONE for a null name) and its score |
| GestureRecognizer.Gate | app/src/main/java/com/example/gestural_music_app/gesture/GestureRecognizer.kt:73-77 | the observation passes unchanged iff its confidence is above 0.7 (or it already is (NONE, 0)); otherwise it becomes (NONE, 0) |
| GestureRecognizer.GateOutputIsGated | app/src/main/java/com/example/gestural_music_app/gesture/GestureRecognizer.kt:73-77 | a reported confidence is 0 or above 0.7, and a reported gesture other than NONE is above 0.7 |
| GestureRecognizer.GateIdempotent | app/src/main/java/com/example/gestural_music_app/gesture/GestureRecognizer.kt:73-77 | gating twice is gating once, and gated observations are left as they are |
| GestureRecognizer.HandleResult | app/src/main/java/com/example/gestural_music_app/gesture/GestureRecognizer.kt:67-80 | one report per result: the candidate itself if its confidence is above 0.7, otherwise (NONE, 0); the stored last gesture and confidence are the ungated candidate |
| GestureRecognizer.HandleResultAtThreshold | app/src/main/java/com/example/gestural_music_app/gesture/GestureRecognizer.kt:73-79 | a known gesture at exactly 0.7 is reported as (NONE, 0) but still stored as the last gesture |
| GestureRecognizer.Nv21 | app/src/main/java/com/example/gestural_music_app/gesture/GestureRecognizer.kt:99-106 | the buffer has length y+u+v and holds the Y bytes, then the V bytes, then the U bytes |
| GestureRecognizer.SplitNv21OfNv21 | app/src/main/java/com/example/gestural_music_app/gesture/GestureRecognizer.kt:103-106 | cutting an assembled buffer at the plane sizes gives back the three planes |
| GestureRecognizer.Nv21OfSplitNv21 | app/src/main/java/com/example/gestural_music_app/gesture/GestureRecognizer.kt:103-106 | assembling the planes cut from a buffer gives back the buffer |
| MusicViewModel.SelectTrack | app/src/main/java/com/example/gestural_music_app/userinterface/MusicViewModel.kt:69-75 | the track becomes current and is loaded; the playing flag is preserved; only the current track and the message change |
| MusicViewModel.Play | app/src/main/java/com/example/gestural_music_app/userinterface/MusicViewModel.kt:86-91 | playing afterwards; sends Play; only the flag and the message change |
| MusicViewModel.Pause | app/src/main/java/com/example/gestural_music_app/userinterface/MusicViewModel.kt:93-98 | not playing afterwards; sends Pause; only the flag and the message change |
| MusicViewModel.TogglePlayPause | app/src/main/java/com/example/gestural_music_app/userinterface/MusicViewModel.kt:77-84 | the playing flag flips, sending Pause when it was playing and Play otherwise; only the flag and the message change |
| MusicViewModel.TogglePlayPauseTwice | app/src/main/java/com/example/gestural_music_app/userinterface/MusicViewModel.kt:77-84 | two toggles restore the playing flag and, apart from the message, the whole state, sending Pause then Play or Play then Pause |
| MusicViewModel.IncreaseVolume | app/src/main/java/com/example/gestural_music_app/userinterface/MusicViewModel.kt:100-103 | sends one volume-up command and changes only the message |
| MusicViewModel.DecreaseVolume | app/src/main/java/com/example/gestural_music_app/userinterface/MusicViewModel.kt:105-108 | sends one volume-down command and changes only the message |
| MusicViewModel.IncreasePitch | app/src/main/java/com/example/gestural_music_app/userinterface/MusicViewModel.kt:110-114 | the pitch rises by one 0.2 step or stops at 2.0, never above; the new pitch is sent to the engine |
| MusicViewModel.DecreasePitch | app/src/main/java/com/example/gestural_music_app/userinterface/MusicViewModel.kt:116-120 | the pitch falls by one 0.2 step or stops at 0.4, never below; the new pitch is sent to the engine |
| MusicViewModel.PitchText | app/src/main/java/com/example/gestural_music_app/userinterface/MusicViewModel.kt:113 | "Pitch: %.2f" is "Pitch: ", the whole part, '.', the tenths digit and a trailing 0; the digits read back give the pitch, eleven characters below 10.0 |
| MusicViewModel.PitchStepsCancel | app/src/main/java/com/example/gestural_music_app/userinterface/MusicViewModel.kt:110-120 | inside the bounds, a step up and a step down undo each other |
| MusicViewModel.ApplyAction | app/src/main/java/com/example/gestural_music_app/userinterface/MusicViewModel.kt:128-131 | one pass of a job sends exactly one command and changes only pitch and message: a PitchUp pass is `increasePitch`, a PitchDown pass is `decreasePitch`, and a volume pass keeps the pitch |
| MusicViewModel.ApplyActionSends | app/src/main/java/com/example/gestural_music_app/userinterface/MusicViewModel.kt:128-131 | a pass sends the command of its first pass: volume up or down, or AdjustPitch carrying the pitch one step up (PitchUp) or down (PitchDown), clamped to 0.4..2.0 |
| MusicViewModel.StopRepeating | app/src/main/java/com/example/gestural_music_app/userinterface/MusicViewModel.kt:161-164 | afterwards no job exists; nothing else changes |
| MusicViewModel.StartRepeating | app/src/main/java/com/example/gestural_music_app/userinterface/MusicViewModel.kt:150-158 | with a job already active nothing happens; otherwise the new job is installed and its first pass runs |
| MusicViewModel.IndexOfCurrent | app/src/main/java/com/example/gestural_music_app/userinterface/MusicViewModel.kt:173 | -1 iff no listed track has the current track's id (always so with no current track); otherwise the first position that has it |
| MusicViewModel.SkipToNextTrack | app/src/main/java/com/example/gestural_music_app/userinterface/MusicViewModel.kt:171-203 | at index i below size-1: track i+1 is loaded, becomes current and plays; at index size-1, including -1 on an empty list: only the end-of-list message; not found in a non-empty list: nothing changes; the pitch, job, last gesture and list never change |
| MusicViewModel.SkipFromPosition | app/src/main/java/com/example/gestural_music_app/userinterface/MusicViewModel.kt:173-196 | from the first track with its id at position i, a skip makes track i+1 current and playing, or on the last track keeps the track and says it is the last one |
| MusicViewModel.SkipOnEmptyList | app/src/main/java/com/example/gestural_music_app/userinterface/MusicViewModel.kt:194-196 | on an empty list a skip only sets "To ostatni utwór na liście" |
| MusicViewModel.SkipWhenCurrentMissing | app/src/main/java/com/example/gestural_music_app/userinterface/MusicViewModel.kt:173-174 | a current track absent from a non-empty list makes a skip do nothing |
| MusicViewModel.SkipThroughCatalogue | app/src/main/java/com/example/gestural_music_app/userinterface/MusicViewModel.kt:171-187 | on the SoundHelix list a skip from song k makes song k+1 current |
| MusicViewModel.HandleGesture | app/src/main/java/com/example/gestural_music_app/userinterface/MusicViewModel.kt:122-148 | the handled gesture becomes the last gesture and the track list is untouched |
| MusicViewModel.Tick | app/src/main/java/com/example/gestural_music_app/userinterface/MusicViewModel.kt:150-157 | without a job a tick does nothing; with a job it is exactly one pass of that job; either way only the pitch and the message can change |
| MusicViewModel.LoadTracks | app/src/main/java/com/example/gestural_music_app/userinterface/MusicViewModel.kt:50-67 | the list is installed; for a non-empty list its first track is selected, LoadTrack is sent for it and the selection text shown, and nothing else (playing flag, pitch, job, last gesture) changes |
| MusicViewModel.Start | app/src/main/java/com/example/gestural_music_app/userinterface/MusicViewModel.kt:46-60 | after creation the SoundHelix list is loaded, song 1 is current, nothing plays and no job runs |
| MusicViewModel.ShowMessage | app/src/main/java/com/example/gestural_music_app/userinterface/MusicViewModel.kt:206-208 | the message is set and nothing else changes |
| MusicViewModel.MessageTimeout | app/src/main/java/com/example/gestural_music_app/userinterface/MusicViewModel.kt:189-199 | the message is cleared iff it is still the one the skip set; nothing else changes |
| MusicViewModel.StartValid | app/src/main/java/com/example/gestural_music_app/userinterface/MusicViewModel.kt:39-44 | the fresh and the started view model satisfy the job/pitch invariant and have no job, no last gesture and pitch 1.0 |
| MusicViewModel.HandleGesturePreservesValid | app/src/main/java/com/example/gestural_music_app/userinterface/MusicViewModel.kt:122-158 | handling any gesture keeps the job matched to the last gesture and the pitch in range |
| MusicViewModel.ApplyActionKeepsPitchRange | app/src/main/java/com/example/gestural_music_app/userinterface/MusicViewModel.kt:110-120 | one pass of any job keeps an even pitch within 0.4..2.0, by the `coerceAtMost`/`coerceAtLeast` clamps |
| MusicViewModel.RunPreservesValid | app/src/main/java/com/example/gestural_music_app/userinterface/MusicViewModel.kt:122-164 | any event sequence keeps the job matched to the last gesture and the pitch an even number of tenths in 4..20 |
| MusicViewModel.ReachableStatesKeepOneMatchingJob | app/src/main/java/com/example/gestural_music_app/userinterface/MusicViewModel.kt:39-44 | after start-up and any events, a job exists only while the last gesture is THUMB_UP, THUMB_DOWN, POINTING_UP or VICTORY, it runs that gesture's action, and pitch stays in 0.4..2.0 |
| MusicViewModel.HandleGestureOnChange | app/src/main/java/com/example/gestural_music_app/userinterface/MusicViewModel.kt:123-131 | a changed gesture, or NONE, cancels the running job before acting; the only job left is a fresh one for a repeatable gesture, after exactly its first pass |
| MusicViewModel.HandleGestureHeldRepeatable | app/src/main/java/com/example/gestural_music_app/userinterface/MusicViewModel.kt:151 | repeating the same repeatable gesture keeps the job and changes and sends nothing |
| MusicViewModel.TicksFireJob | app/src/main/java/com/example/gestural_music_app/userinterface/MusicViewModel.kt:150-157 | n ticks of a running job send exactly n commands, the k-th being that of the k-th pass; the pitch ends n steps further in the job's direction, clamped at the bound, and nothing but pitch and message changes |
| MusicViewModel.TicksFollowPasses | app/src/main/java/com/example/gestural_music_app/userinterface/MusicViewModel.kt:150-157 | the k-th of n ticks sends the k-th pass's command of the running job, and the pitch after n ticks is n steps from the start in the job's direction, clamped |
| MusicViewModel.StartedJobFiresOncePerTick | app/src/main/java/com/example/gestural_music_app/userinterface/MusicViewModel.kt:150-157 | a newly started job sends the first pass's command at once and then the next pass's command on every tick, so POINTING_UP raises and VICTORY lowers the pitch by one step per pass until the bound; it stays the only job |
| MusicViewModel.TicksWithoutJob | app/src/main/java/com/example/gestural_music_app/userinterface/MusicViewModel.kt:161-164 | once stopped, no further tick changes or sends anything |
| MusicViewModel.OpenPalmPlays | app/src/main/java/com/example/gestural_music_app/userinterface/MusicViewModel.kt:132-135 | OPEN_PALM leaves the player playing with no job, sending Play only if it was stopped, and changes nothing but the flag, the message, the last gesture and the job; holding it does nothing more |
| MusicViewModel.ClosedFistPauses | app/src/main/java/com/example/gestural_music_app/userinterface/MusicViewModel.kt:136-139 | CLOSED_FIST leaves the player paused with no job, sending Pause only if it was playing, and changes nothing but the flag, the message, the last gesture and the job; holding it does nothing more |
| MusicViewModel.NoGestureStops | app/src/main/java/com/example/gestural_music_app/userinterface/MusicViewModel.kt:140 | NONE cancels the job and records itself, changing nothing else; a second NONE changes nothing |
| MusicViewModel.ILoveYouSkipsEveryTime | app/src/main/java/com/example/gestural_music_app/userinterface/MusicViewModel.kt:142-145 | ILOVEYOU skips exactly as skipToNextTrack does on every report, held or not, and leaves no job |
| Pipeline.Feed | app/src/main/java/com/example/gestural_music_app/userinterface/MainScreen.kt:295-297 | a classifier result reaches the view model as the gated gesture of its candidate, the commands sent are exactly those of that gesture's handling, and the recogniser stores the ungated candidate; a job tick leaves the recogniser alone and runs one pass of the view model's job |
| Pipeline.UnconvincingStreamStaysIdle | app/src/main/java/com/example/gestural_music_app/gesture/GestureRecognizer.kt:73-77 | if no result is above 0.7, an idle player sends no command and starts no job, whatever the labels and ticks |
| Pipeline.ThumbUpThenThumbDownScenario | app/src/main/java/com/example/gestural_music_app/userinterface/MusicViewModel.kt:122-158 | thumb up twice, a null result, thumb down: volume up once, down once, and the one job left lowers the volume |
| Pipeline.AlternationScenario | app/src/main/java/com/example/gestural_music_app/userinterface/MusicViewModel.kt:122-158 | thumb up, down, up for one result each: three commands, and only the thumb-up job is left |
| VoiceRecording.TruncDiv | app/src/main/java/com/example/gestural_music_app/record_music/VoiceRecordingTab.kt:328-330 | the unit conversions divide with truncation toward zero, as Java's `/` on Long does: the remainder has the dividend's sign and is smaller than the divisor in magnitude |
| VoiceRecording.Pad2 | app/src/main/java/com/example/gestural_music_app/record_music/VoiceRecordingTab.kt:331 | "%02d" gives at least two characters: exactly two digits denoting n for 0..99, a digit string denoting n without a leading zero for n of 10 or more, and for negative n a '-' followed by the digits of -n without a leading zero |
| VoiceRecording.DurationFields | app/src/main/java/com/example/gestural_music_app/record_music/VoiceRecordingTab.kt:328-330 | for ms >= 0: minutes = ms div 60000; seconds are in 0..59 and equal (ms div 1000) mod 60; 60·minutes + seconds = ms div 1000, so sub-second time is dropped |
| VoiceRecording.NegativeDurationFields | app/src/main/java/com/example/gestural_music_app/record_music/VoiceRecordingTab.kt:328-330 | for a negative duration the fields are truncated toward zero, seconds lie in -59..0 and the fields still sum to the whole seconds |
| VoiceRecording.FormatDurationRoundTrip | app/src/main/java/com/example/gestural_music_app/record_music/VoiceRecordingTab.kt:327-332 | reading the rendered "MM:SS" back gives the whole minutes and the leftover seconds |
| VoiceRecording.FormatDurationWidth | app/src/main/java/com/example/gestural_music_app/record_music/VoiceRecordingTab.kt:331 | below 6,000,000 ms the rendering is exactly five characters with ':' in the middle |
| VoiceRecording.RecordingFileName | app/src/main/java/com/example/gestural_music_app/record_music/VoiceRecordingTab.kt:66 | the name starts with "nagranie_", ends with ".3gp" and has something in between |
| VoiceRecording.RecordingFileNameNumber | app/src/main/java/com/example/gestural_music_app/record_music/VoiceRecordingTab.kt:52-57 | the part between prefix and suffix is the decimal recording count plus one |
| VoiceRecording.RecordingFileNameInjective | app/src/main/java/com/example/gestural_music_app/record_music/VoiceRecordingTab.kt:52-66 | different recording counts give different names |
| VoiceRecording.StartRecordingReusesExistingFile | app/src/main/java/com/example/gestural_music_app/record_music/VoiceRecordingTab.kt:65-95 | as written, the recorder's file and the path handed to onStarted are the base name whether or not that file exists |
| VoiceRecording.IntendedRecordingFile | app/src/main/java/com/example/gestural_music_app/record_music/VoiceRecordingTab.kt:69-74 | the intended choice uses the base name for a new file and, when the file exists, a name that differs from it |
| LoginViewModel.FailureMessage | app/src/main/java/com/example/gestural_music_app/login/LoginViewModel.kt:31-37 | exactly the unclassified failures render as "Błąd logowania: " followed by the exception's message ("null" when absent) |
| LoginViewModel.FailureMessageRoundTrip | app/src/main/java/com/example/gestural_music_app/login/LoginViewModel.kt:31-37 | each shown message identifies its failure kind: the four fixed messages are distinct and none starts like the fallback |
| LoginViewModel.Login | app/src/main/java/com/example/gestural_music_app/login/LoginViewModel.kt:17-25 | an empty email or password is rejected with "Email i hasło nie mogą być puste" and no sign-in request; otherwise the state is LOADING and the request carries both fields |
| LoginViewModel.OnAuthOutcome | app/src/main/java/com/example/gestural_music_app/login/LoginViewModel.kt:26-38 | SUCCESS iff the service signed in; a failure gives ERROR with its message |
| LoginViewModel.LoginStates | app/src/main/java/com/example/gestural_music_app/login/LoginViewModel.kt:17-40 | one press gives a single ERROR state for empty fields, otherwise LOADING followed by the outcome's state |
| LoginViewModel.LoginSucceedsIff | app/src/main/java/com/example/gestural_music_app/login/LoginViewModel.kt:17-28 | a press ends in SUCCESS iff both fields are non-empty and the service signs in |
| LoginViewModel.ResetState | app/src/main/java/com/example/gestural_music_app/login/LoginViewModel.kt:42-44 | from any state the result is the initial IDLE state |
| RegisterForm.OnSubmit | app/src/main/java/com/example/gestural_music_app/register/RegisterScreen.kt:147-164 | registration is called, with email, password and name, iff all three are non-empty and the passwords match; then the form is untouched, otherwise an error is shown and nothing is called |
| RegisterForm.MissingFieldTakesPrecedence | app/src/main/java/com/example/gestural_music_app/register/RegisterScreen.kt:149-155 | any empty email, password or name gives "Wypełnij wszystkie pola", mismatch or not |
| RegisterForm.MismatchRejected | app/src/main/java/com/example/gestural_music_app/register/RegisterScreen.kt:152-154 | filled fields with differing passwords give "Hasła nie są identyczne" and no call |
| RegisterForm.EmptyConfirmationIsMismatch | app/src/main/java/com/example/gestural_music_app/register/RegisterScreen.kt:149-154 | an empty confirmation is never reported as missing; it is a mismatch |
| RegisterForm.OnRegisterError | app/src/main/java/com/example/gestural_music_app/register/RegisterScreen.kt:158-161 | the service's error sets the error flag and shows its text, nothing else |
| MainScreen.Displayed | app/src/main/java/com/example/gestural_music_app/userinterface/MainScreen.kt:169-208 | the login screen wins over the register screen, which wins over the tabs |
| MainScreen.ClickTab | app/src/main/java/com/example/gestural_music_app/userinterface/MainScreen.kt:258-277 | the music tab is always selected; the recording tab sets logged-in to (user present and no forced logout), and is selected only then, otherwise the login screen opens and the tab stays |
| MainScreen.OnLoginSuccess | app/src/main/java/com/example/gestural_music_app/userinterface/MainScreen.kt:171-181 | the login screen closes, the user is logged in, both stored flags are cleared and the recording tab is selected |
| MainScreen.OnNavigateToRegister | app/src/main/java/com/example/gestural_music_app/userinterface/MainScreen.kt:182-185 | the register screen is shown and only the two screen flags change |
| MainScreen.OnLoginCancel | app/src/main/java/com/example/gestural_music_app/userinterface/MainScreen.kt:186-189 | the login screen closes and the music tab is selected; nothing else changes |
| MainScreen.OnRegisterSuccess | app/src/main/java/com/example/gestural_music_app/userinterface/MainScreen.kt:193-202 | the register screen closes, the user is logged in, both stored flags are cleared and the recording tab is selected |
| MainScreen.OnNavigateToLogin | app/src/main/java/com/example/gestural_music_app/userinterface/MainScreen.kt:203-206 | the login screen is shown, the register flag is off and only the two screen flags change |
| MainScreen.PerformLogout | app/src/main/java/com/example/gestural_music_app/userinterface/MainScreen.kt:141-166 | the music tab is selected, the user is logged out and both was_logged_out and force_logout are set |
| MainScreen.LogoutBlocksRecordingTab | app/src/main/java/com/example/gestural_music_app/userinterface/MainScreen.kt:260-273 | after logout the recording tab opens the login screen even if the sign-in service still has a user |
| MainScreen.NextPreservesGated | app/src/main/java/com/example/gestural_music_app/userinterface/MainScreen.kt:169-276 | every user action keeps the gating invariant (logged in implies no forced logout; recording tab shown only when logged in; never both auth screens) |
| MainScreen.RunPreservesGated | app/src/main/java/com/example/gestural_music_app/userinterface/MainScreen.kt:169-276 | any sequence of user actions keeps the gating invariant |
| MainScreen.RecordingTabOnlyWhenLoggedIn | app/src/main/java/com/example/gestural_music_app/userinterface/MainScreen.kt:242-276 | from a fresh start, for any sequence of the modelled actions, the recording tab is on screen only for a logged-in user without a forced logout |

## Left out

- Camera binding, classifier set-up, `analyze` and `recognizeAsync`: platform code on an executor thread. So is the keep-only-latest frame policy.
- The YUV to JPEG to Bitmap conversion and `rotateAndScaleBitmap`: library codecs and float matrix scaling. Only the NV21 byte layout is modelled.
- Floating point. Confidence is fixed-point at millionths, so the exact value of the float `0.7f` (slightly below 0.7) is not reproduced. Pitch is in exact tenths, so the float drift of repeated `+ 0.2f` (for example 2.0000002 before clamping) is not reproduced.
- MusicViewModel.PitchText: renders "%.2f" with a '.' separator; the default locale's decimal separator is not modelled.
- VoiceRecording.Pad2: uses ASCII digits; locales with other digit sets are not modelled.
- Time and threads. The 300 ms delay, the 3000 ms message clean-up delay and the coroutine dispatch are replaced by explicit events. Nothing models `handleGesture` being called from the classifier's thread. A job's first pass and a skip's effect are taken to happen at once.
- The `confidence` argument of `handleGesture`: it is unused there, so the model drops it.
- `isLoading` and the catch block of `loadTracks`: the catalogue cannot fail.
- `onCleared` and `AudioController`'s internals. The audio engine is an abstract sink of commands, so there is no volume level to model.
- `String.lowercase()` is modelled on ASCII letters only. This does not change any gesture. Of the non-ASCII characters, only two lower-case to something containing an ASCII letter. The Kelvin sign gives 'k', and no label contains 'k'. U+0130 (capital I with dot above) gives 'i' followed by the combining dot U+0307, so the result keeps a non-ASCII character and matches no label.
- Sign-in and registration calls, SharedPreferences writes as I/O, WebStorage and cookies. Their outcomes are inputs.
- The register view models: they only pass calls through to the sign-in service.
- The login and register screen layouts.
- The landscape and portrait submit handlers (RegisterScreen.kt:148-163 and 281-296): they are textually identical, so `RegisterForm.OnSubmit` models both.
- MainScreen's `LaunchedEffect` checks and auth-state listener (MainScreen.kt:82-138): they run asynchronously after delays.
- MainScreen.RecordingTabOnlyWhenLoggedIn: covers a fresh start only, not re-creating the activity (for example on rotation). Then `selectedTab`, `showLoginScreen` and `showRegisterScreen` are restored by `rememberSaveable` (MainScreen.kt:67, 71, 73), but `isUserLoggedIn` restarts as false under plain `remember` (MainScreen.kt:66). So the source can show the recording tab with the flag false until the asynchronous check of lines 82-94 sets it. That check is itself not modelled.
- The "Pomyślnie wylogowano" message after logout: it is `MusicViewModel.ShowMessage`, and the wiring between the two screens is not modelled.
- Room persistence and `RecordingViewModel`: playback, deletion and e-mail are I/O.
- `MediaRecorder` and `calculateDuration`: I/O.
- `formatDate`: depends on locale and time zone.
- The recording's directory: `File(dir, name).absolutePath` depends on the device. The model returns the file name; the directory is the same in both branches.
- AudioDbApi.kt: a Retrofit declaration with no logic.
- MainActivity.kt: lifecycle wiring only.

## Findings

| source | as written | input that shows it | evidently intended | confidence | as-written member | corrected member |
|---|---|---|---|---|---|---|
| app/src/main/java/com/example/gestural_music_app/record_music/VoiceRecordingTab.kt:70-74 | the collision branch declares new `fileName` and `file` locals that shadow the outer ones, so the recorder still writes to `nagranie_N.3gp` | one stored recording and a leftover `nagranie_2.3gp` on disk: the new recording is written over that file | when the file exists, record into `nagranie_N_<timestamp>.3gp`, as the comment above the branch says | high; not executed | VoiceRecording.StartRecordingReusesExistingFile | VoiceRecording.IntendedRecordingFile |
