/**
 * Normalisation of the hand-gesture classifier's output: the first category
 * of the first hand is mapped to a closed set of gestures and gated on its
 * confidence before the listener hears of it. Also the NV21 byte layout the
 * camera frame is packed into before it is compressed.
 */
module GestureRecognizer {
  import opened Nullable

  datatype GestureType =
    | ThumbUp | ThumbDown | OpenPalm | ClosedFist | PointingUp | Victory | None | ILoveYou

  /**
   * Confidences are fixed-point numbers: `Scale` stands for 1.0, so the
   * classifier's threshold 0.7 is `Threshold`.
   */
  const Scale: int := 1_000_000
  const Threshold: int := 700_000

  /** A gesture with the confidence attached to it. */
  datatype Observation = Observation(gesture: GestureType, confidence: int)

  /** The observation reported when nothing is confidently recognised. */
  const Nothing: Observation := Observation(None, 0)

  // ---------------------------------------------------------------------
  // Case-insensitive name mapping

  function LowerChar(c: char): char {
    if 'A' <= c <= 'Z' then (c as int + 32) as char else c
  }

  function UpperChar(c: char): char {
    if 'a' <= c <= 'z' then (c as int - 32) as char else c
  }

  /** `String.lowercase()` on the ASCII letters. */
  function Lower(s: string): (r: string)
    ensures |r| == |s|
    ensures forall i :: 0 <= i < |s| ==> r[i] == LowerChar(s[i])
  {
    seq(|s|, i requires 0 <= i < |s| => LowerChar(s[i]))
  }

  /** `String.uppercase()` on the ASCII letters. */
  function Upper(s: string): (r: string)
    ensures |r| == |s|
    ensures forall i :: 0 <= i < |s| ==> r[i] == UpperChar(s[i])
  {
    seq(|s|, i requires 0 <= i < |s| => UpperChar(s[i]))
  }

  /** Two strings that differ at most in the case of their letters. */
  predicate EqualIgnoringCase(a: string, b: string) {
    |a| == |b| && forall i :: 0 <= i < |a| ==> LowerChar(a[i]) == LowerChar(b[i])
  }

  /** The lower-case label the classifier uses for a gesture. */
  function LabelOf(g: GestureType): (name: string)
    requires g != None
    ensures Lower(name) == name
  {
    match g
    case ThumbUp => "thumb_up"
    case ThumbDown => "thumb_down"
    case OpenPalm => "open_palm"
    case ClosedFist => "closed_fist"
    case PointingUp => "pointing_up"
    case Victory => "victory"
    case ILoveYou => "iloveyou"
  }

  const KnownLabels: set<string> :=
    {"thumb_up", "thumb_down", "open_palm", "closed_fist", "pointing_up", "victory", "iloveyou"}

  /**
   * Maps a category name to a gesture, ignoring case: exactly the seven known
   * labels give a gesture other than `None`, and they give the gesture they
   * name.
   */
  function MapToGestureType(categoryName: string): (g: GestureType)
    ensures g != None <==> Lower(categoryName) in KnownLabels
    ensures g != None ==> Lower(categoryName) == LabelOf(g)
  {
    var name := Lower(categoryName);
    if name == "thumb_up" then ThumbUp
    else if name == "thumb_down" then ThumbDown
    else if name == "open_palm" then OpenPalm
    else if name == "closed_fist" then ClosedFist
    else if name == "pointing_up" then PointingUp
    else if name == "victory" then Victory
    else if name == "iloveyou" then ILoveYou
    else None
  }

  /** Each gesture's label, in any mix of letter cases, maps back to that gesture. */
  lemma MapToGestureTypeOfLabel(g: GestureType, name: string)
    requires g != None
    requires EqualIgnoringCase(name, LabelOf(g))
    ensures MapToGestureType(name) == g
  {
    assert Lower(name) == Lower(LabelOf(g));
  }

  /** The mapping depends on the category name only up to letter case. */
  lemma MapToGestureTypeIgnoresCase(a: string, b: string)
    requires EqualIgnoringCase(a, b)
    ensures MapToGestureType(a) == MapToGestureType(b)
  {
    assert Lower(a) == Lower(b);
  }

  /** Upper-casing a name never changes the gesture it maps to. */
  lemma MapToGestureTypeOfUpper(name: string)
    ensures MapToGestureType(Upper(name)) == MapToGestureType(name)
  {
    forall i | 0 <= i < |name|
      ensures LowerChar(Upper(name)[i]) == LowerChar(name[i])
    {
    }
    MapToGestureTypeIgnoresCase(Upper(name), name);
  }

  /** The label "none" is not a gesture name; it maps to `None` like any unknown text. */
  lemma MapToGestureTypeOfNoneLabel()
    ensures MapToGestureType("none") == None
    ensures MapToGestureType("NONE") == None
  {
    assert Lower("none") == "none";
    assert Lower("NONE") == "none";
  }

  // ---------------------------------------------------------------------
  // Classifier results

  /** One ranked category of the classifier for one hand. */
  datatype Category = Category(categoryName: Nullable<string>, score: int)

  /** The classifier's result: for each detected hand, its ranked categories. */
  datatype RecognizerResult = RecognizerResult(gestures: seq<seq<Category>>)

  /**
   * The unfiltered candidate: the first category of the first hand, or
   * `Nothing` when the result is null, has no hands, or the first hand has
   * no categories.
   */
  function Candidate(result: Nullable<RecognizerResult>): (c: Observation)
    ensures (result.Null? || |result.value.gestures| == 0 || |result.value.gestures[0]| == 0)
      ==> c == Nothing
    ensures result.NonNull? && |result.value.gestures| > 0 && |result.value.gestures[0]| > 0 ==>
      var top := result.value.gestures[0][0];
      && c.confidence == top.score
      && c.gesture == (if top.categoryName.NonNull? then MapToGestureType(top.categoryName.value) else None)
  {
    var hand := if result.Null? then Null else FirstOrNull(result.value.gestures);
    var top := if hand.Null? then Null else FirstOrNull(hand.value);
    var gesture := if top.Null? || top.value.categoryName.Null? then None
                   else MapToGestureType(top.value.categoryName.value);
    var confidence := if top.Null? then 0 else top.value.score;
    Observation(gesture, confidence)
  }

  /** The confidence gate: an observation passes only strictly above the threshold. */
  function Gate(c: Observation): (r: Observation)
    ensures r == c <==> c.confidence > Threshold || c == Nothing
    ensures r != c ==> r == Nothing
  {
    if c.confidence > Threshold then c else Nothing
  }

  /** What the gate lets through is either nothing or a confident observation. */
  predicate Gated(r: Observation) {
    r == Nothing || r.confidence > Threshold
  }

  lemma GateOutputIsGated(c: Observation)
    ensures Gated(Gate(c))
    ensures Gate(c).gesture != None ==> Gate(c).confidence > Threshold
    ensures Gate(c).confidence == 0 || Gate(c).confidence > Threshold
  {
  }

  /** Gating twice is gating once, and gated observations are left alone. */
  lemma GateIdempotent(c: Observation)
    ensures Gate(Gate(c)) == Gate(c)
    ensures Gated(c) ==> Gate(c) == c
  {
  }

  /** The recogniser's memory of the last raw candidate. */
  datatype RecognizerState = RecognizerState(lastGesture: GestureType, lastConfidence: int)

  const InitialRecognizer: RecognizerState := RecognizerState(None, 0)

  /** The outcome of one classifier result: the new state and the one report to the listener. */
  datatype Handled = Handled(next: RecognizerState, reported: Observation)

  /**
   * Handles one classifier result: reports the gated candidate to the listener
   * exactly once and remembers the unfiltered candidate.
   */
  function HandleResult(s: RecognizerState, result: Nullable<RecognizerResult>): (h: Handled)
    ensures var c := Candidate(result);
      && (c.confidence > Threshold ==> h.reported == c)
      && (c.confidence <= Threshold ==> h.reported == Nothing)
      && h.next == RecognizerState(c.gesture, c.confidence)
    ensures Gated(h.reported)
  {
    var c := Candidate(result);
    Handled(RecognizerState(c.gesture, c.confidence), Gate(c))
  }

  /** A confidence exactly at the threshold is reported as no gesture. */
  lemma HandleResultAtThreshold(s: RecognizerState, name: string)
    requires MapToGestureType(name) != None
    ensures var r := NonNull(RecognizerResult([[Category(NonNull(name), Threshold)]]));
      && HandleResult(s, r).reported == Nothing
      && HandleResult(s, r).next.lastGesture == MapToGestureType(name)
  {
  }

  // ---------------------------------------------------------------------
  // NV21 frame assembly

  type Byte = b: int | 0 <= b < 256

  /** The NV21 buffer: the Y plane, then the V plane, then the U plane. */
  function Nv21(y: seq<Byte>, u: seq<Byte>, v: seq<Byte>): (nv: seq<Byte>)
    ensures |nv| == |y| + |u| + |v|
    ensures nv[..|y|] == y
    ensures nv[|y|..|y| + |v|] == v
    ensures nv[|y| + |v|..] == u
  {
    y + v + u
  }

  datatype Planes = Planes(y: seq<Byte>, u: seq<Byte>, v: seq<Byte>)

  /** Cuts an NV21 buffer back into its planes, given the Y and U plane sizes. */
  function SplitNv21(nv: seq<Byte>, ySize: nat, uSize: nat): (p: Planes)
    requires ySize + uSize <= |nv|
    ensures |p.y| == ySize && |p.u| == uSize && |p.y| + |p.u| + |p.v| == |nv|
  {
    var vSize := |nv| - ySize - uSize;
    Planes(nv[..ySize], nv[ySize + vSize..], nv[ySize..ySize + vSize])
  }

  /** Assembling then splitting gives back the three planes. */
  lemma SplitNv21OfNv21(y: seq<Byte>, u: seq<Byte>, v: seq<Byte>)
    ensures SplitNv21(Nv21(y, u, v), |y|, |u|) == Planes(y, u, v)
  {
  }

  /** Splitting then assembling gives back the buffer. */
  lemma Nv21OfSplitNv21(nv: seq<Byte>, ySize: nat, uSize: nat)
    requires ySize + uSize <= |nv|
    ensures var p := SplitNv21(nv, ySize, uSize); Nv21(p.y, p.u, p.v) == nv
  {
    var p := SplitNv21(nv, ySize, uSize);
    assert p.y + p.v + p.u == nv;
  }
}
