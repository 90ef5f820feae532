/**
 * The rules inside `EarthquakeAdapter` that are plain string and number
 * functions (splitting the location, choosing the magnitude colour), and the
 * list of records the adapter holds.
 */
module Adapter {
  import opened Wrappers
  import opened Quake

  // ---------------------------------------------------------------------------
  // Location split
  // ---------------------------------------------------------------------------

  /** `LOCATION_SEPARATOR`. */
  const LocationSeparator: string := "of "

  /** The separator occurs in `s` starting at index `i`. */
  predicate SeparatorAt(s: string, i: nat) {
    i + |LocationSeparator| <= |s| && s[i..i + |LocationSeparator|] == LocationSeparator
  }

  /** The first occurrence of the separator at or after `from`. */
  function FindSeparator(s: string, from: nat): (r: Option<nat>)
    requires from <= |s|
    decreases |s| - from
    ensures r.Some? ==> from <= r.value && SeparatorAt(s, r.value)
    ensures r.Some? ==> forall j :: from <= j < r.value ==> !SeparatorAt(s, j)
    ensures r.None? ==> forall j: nat :: from <= j ==> !SeparatorAt(s, j)
  {
    if |s| < from + |LocationSeparator| then None
    else if SeparatorAt(s, from) then Some(from)
    else FindSeparator(s, from + 1)
  }

  /** The pieces between occurrences of the separator, left to right, empty ones included. */
  function SplitPieces(s: string): (pieces: seq<string>)
    decreases |s|
    ensures |pieces| >= 1
  {
    match FindSeparator(s, 0)
    case None => [s]
    case Some(i) => [s[..i]] + SplitPieces(s[i + |LocationSeparator|..])
  }

  predicate AllEmpty(pieces: seq<string>) {
    forall k :: 0 <= k < |pieces| ==> pieces[k] == ""
  }

  /** The pieces with the trailing run of empty pieces removed. */
  function DropTrailingEmpty(pieces: seq<string>): seq<string> {
    if AllEmpty(pieces) then [] else [pieces[0]] + DropTrailingEmpty(pieces[1..])
  }

  /**
   * `String.split(LOCATION_SEPARATOR)`: without a match the array holds the
   * whole string; otherwise the pieces, with trailing empty pieces dropped.
   */
  function Split(s: string): seq<string> {
    if FindSeparator(s, 0).None? then [s] else DropTrailingEmpty(SplitPieces(s))
  }

  /** The offset text shown before the place: a substring of the location, or the `near_the` resource. */
  datatype LocationOffset = OffsetText(text: string) | NearThe

  datatype LocationParts = LocationParts(offset: LocationOffset, primary: string)

  /** The exception `getView` throws when `parts` has no second element. */
  datatype ViewError = ArrayIndexOutOfBounds

  /** The location offset and primary location `getView` shows for `location`. */
  function SplitLocation(location: string): (r: Result<LocationParts, ViewError>)
    ensures FindSeparator(location, 0).None? ==> r == Success(LocationParts(NearThe, location))
    ensures FindSeparator(location, 0).Some? && r.Success? ==>
      r.value.offset == OffsetText(location[..FindSeparator(location, 0).value] + LocationSeparator)
    ensures FindSeparator(location, 0).Some? ==>
      (r.Failure? <==> OnlySeparators(location[FindSeparator(location, 0).value + |LocationSeparator|..]))
    ensures r.Success? ==> forall j: nat :: !SeparatorAt(r.value.primary, j)
  {
    match FindSeparator(location, 0)
    case None => Success(LocationParts(NearThe, location))
    case Some(i) =>
      var rest := location[i + |LocationSeparator|..];
      SplitAtFirstSeparator(location, i);
      DropTrailingEmptyAfterHead(location[..i], SplitPieces(rest));
      AllEmptyIffOnlySeparators(rest);
      FirstPiece(rest);
      var parts := Split(location);
      if |parts| < 2 then Failure(ArrayIndexOutOfBounds)
      else Success(LocationParts(OffsetText(parts[0] + LocationSeparator), parts[1]))
  }

  /** The text consists of zero or more copies of the separator. */
  predicate OnlySeparators(t: string)
    decreases |t|
  {
    t == [] || (SeparatorAt(t, 0) && OnlySeparators(t[|LocationSeparator|..]))
  }

  /** `i` is the first index where the separator occurs in `s`. */
  predicate FirstSeparatorAt(s: string, i: nat) {
    SeparatorAt(s, i) && forall j :: 0 <= j < i ==> !SeparatorAt(s, j)
  }

  /** The first piece is the text up to the first separator, or all of it. */
  lemma FirstPiece(t: string)
    ensures |SplitPieces(t)[0]| <= |t| && SplitPieces(t)[0] == t[..|SplitPieces(t)[0]|]
    ensures |SplitPieces(t)[0]| == |t| || SeparatorAt(t, |SplitPieces(t)[0]|)
    ensures forall j: nat :: !SeparatorAt(SplitPieces(t)[0], j)
  {
    match FindSeparator(t, 0)
    case None =>
      assert SplitPieces(t)[0] == t;
    case Some(k) =>
      var piece := t[..k];
      assert SplitPieces(t)[0] == piece;
      forall j: nat
        ensures SeparatorAt(piece, j) ==> SeparatorAt(t, j)
      {
        if j + |LocationSeparator| <= k {
          assert piece[j..j + |LocationSeparator|] == t[j..j + |LocationSeparator|];
        }
      }
  }

  /** A list of pieces is all empty exactly when its head and its tail are. */
  lemma AllEmptyCons(a: string, rest: seq<string>)
    ensures AllEmpty([a] + rest) <==> a == "" && AllEmpty(rest)
  {
    var pieces := [a] + rest;
    assert pieces[0] == a;
    assert forall k :: 0 <= k < |rest| ==> pieces[k + 1] == rest[k];
  }

  /** All pieces are empty exactly when the text is a run of separators. */
  lemma {:induction false} AllEmptyIffOnlySeparators(t: string)
    decreases |t|
    ensures AllEmpty(SplitPieces(t)) <==> OnlySeparators(t)
  {
    match FindSeparator(t, 0)
    case None =>
      assert SplitPieces(t) == [t];
      assert !SeparatorAt(t, 0);
      AllEmptyCons(t, []);
    case Some(j) =>
      var rest := t[j + |LocationSeparator|..];
      assert SplitPieces(t) == [t[..j]] + SplitPieces(rest);
      AllEmptyIffOnlySeparators(rest);
      AllEmptyCons(t[..j], SplitPieces(rest));
      assert j > 0 ==> !SeparatorAt(t, 0);
      assert |t[..j]| == j;
  }

  /** Dropping trailing empties keeps a head when some later piece is non-empty, and at most the head otherwise. */
  lemma DropTrailingEmptyAfterHead(a: string, rest: seq<string>)
    ensures AllEmpty(rest) ==> |DropTrailingEmpty([a] + rest)| < 2
    ensures !AllEmpty(rest) ==>
      |DropTrailingEmpty([a] + rest)| >= 2 &&
      DropTrailingEmpty([a] + rest)[0] == a && DropTrailingEmpty([a] + rest)[1] == rest[0]
  {
    var pieces := [a] + rest;
    assert pieces[1..] == rest;
    AllEmptyCons(a, rest);
    if !AllEmpty(pieces) {
      assert DropTrailingEmpty(pieces) == [a] + DropTrailingEmpty(rest);
    }
    if !AllEmpty(rest) {
      assert DropTrailingEmpty(rest) == [rest[0]] + DropTrailingEmpty(rest[1..]);
    }
  }

  /** The array `split` returns for a location whose first separator is at `i`. */
  lemma SplitAtFirstSeparator(location: string, i: nat)
    requires FirstSeparatorAt(location, i)
    ensures Split(location)
            == DropTrailingEmpty([location[..i]] + SplitPieces(location[i + |LocationSeparator|..]))
  {
    assert FindSeparator(location, 0) == Some(i);
  }

  /** Without a separator the offset is `near_the` and the primary location is the whole location. */
  lemma SplitWithoutSeparator(location: string)
    requires forall j: nat :: !SeparatorAt(location, j)
    ensures SplitLocation(location) == Success(LocationParts(NearThe, location))
  {
  }

  /**
   * With a separator anywhere in the location, first at `i`: the offset is the
   * text before it followed by `"of "`, and the primary location is the text
   * between it and the next separator (or the end); anything after a second
   * separator is dropped.
   */
  lemma SplitWithSeparator(location: string, i: nat)
    requires FirstSeparatorAt(location, i)
    requires SplitLocation(location).Success?
    ensures SplitLocation(location).value.offset == OffsetText(location[..i] + LocationSeparator)
    ensures var rest, primary := location[i + |LocationSeparator|..], SplitLocation(location).value.primary;
      |primary| <= |rest| && primary == rest[..|primary|] &&
      (|primary| == |rest| || SeparatorAt(rest, |primary|)) &&
      forall j: nat :: !SeparatorAt(primary, j)
  {
    var rest := location[i + |LocationSeparator|..];
    SplitAtFirstSeparator(location, i);
    DropTrailingEmptyAfterHead(location[..i], SplitPieces(rest));
    FirstPiece(rest);
  }

  /**
   * `parts[1]` is out of bounds exactly when the text after the first
   * separator is empty or made only of further separators.
   */
  lemma SplitFailsIffOnlySeparatorsFollow(location: string, i: nat)
    requires FirstSeparatorAt(location, i)
    ensures SplitLocation(location).Failure? <==> OnlySeparators(location[i + |LocationSeparator|..])
  {
    var rest := location[i + |LocationSeparator|..];
    SplitAtFirstSeparator(location, i);
    DropTrailingEmptyAfterHead(location[..i], SplitPieces(rest));
    AllEmptyIffOnlySeparators(rest);
  }

  /**
   * The split the code evidently intends: at the first separator only, so the
   * offset and the primary location together give back the whole location.
   */
  function SplitLocationAtFirst(location: string): (r: LocationParts)
    ensures FindSeparator(location, 0).None? ==> r == LocationParts(NearThe, location)
    ensures FindSeparator(location, 0).Some? ==>
      r.offset.OffsetText? && r.offset.text + r.primary == location &&
      |r.offset.text| == FindSeparator(location, 0).value + |LocationSeparator|
  {
    match FindSeparator(location, 0)
    case None => LocationParts(NearThe, location)
    case Some(i) =>
      LocationParts(OffsetText(location[..i] + LocationSeparator), location[i + |LocationSeparator|..])
  }

  /** The text has no letter 'o', so no separator can start in it. */
  predicate WithoutO(s: string) {
    forall k :: 0 <= k < |s| ==> s[k] != 'o'
  }

  /** Every occurrence of the separator starts with an 'o'. */
  lemma SeparatorStartsWithO(s: string)
    ensures forall j: nat :: SeparatorAt(s, j) ==> s[j] == 'o'
  {
    forall j: nat | SeparatorAt(s, j)
      ensures s[j] == 'o'
    {
      assert s[j..j + |LocationSeparator|][0] == s[j];
    }
  }

  /** Text without an 'o' before a separator: that separator is the first. */
  lemma FirstSeparatorAfterPlainText(prefix: string, rest: string)
    requires WithoutO(prefix)
    ensures FindSeparator(prefix + LocationSeparator + rest, 0) == Some(|prefix|)
  {
    var s := prefix + LocationSeparator + rest;
    assert s[|prefix|..|prefix| + |LocationSeparator|] == LocationSeparator;
    assert SeparatorAt(s, |prefix|);
    SeparatorStartsWithO(s);
    assert forall k :: 0 <= k < |prefix| ==> s[k] == prefix[k];
  }

  /** Text without an 'o' holds no separator. */
  lemma NoSeparatorInPlainText(s: string)
    requires WithoutO(s)
    ensures FindSeparator(s, 0) == None
  {
    SeparatorStartsWithO(s);
  }

  /**
   * A place that itself contains "of " loses everything after it:
   * "10km N of Isle of Man" shows "Isle " as its primary location, where the
   * split at the first separator shows "Isle of Man".
   */
  lemma SplitLocationDropsTextAfterSecondSeparator(offset: string, place: string, tail: string)
    requires WithoutO(offset) && WithoutO(place) && WithoutO(tail) && tail != ""
    ensures SplitLocation(offset + LocationSeparator + place + LocationSeparator + tail)
            == Success(LocationParts(OffsetText(offset + LocationSeparator), place))
    ensures SplitLocationAtFirst(offset + LocationSeparator + place + LocationSeparator + tail)
            == LocationParts(OffsetText(offset + LocationSeparator), place + LocationSeparator + tail)
  {
    var rest := place + LocationSeparator + tail;
    var s := offset + LocationSeparator + rest;
    assert s == offset + LocationSeparator + place + LocationSeparator + tail;
    FirstSeparatorAfterPlainText(offset, rest);
    FirstSeparatorAfterPlainText(place, tail);
    NoSeparatorInPlainText(tail);
    assert s[..|offset|] == offset && s[|offset| + |LocationSeparator|..] == rest;
    assert rest[..|place|] == place && rest[|place| + |LocationSeparator|..] == tail;
    assert SplitPieces(tail) == [tail];
    assert SplitPieces(rest) == [place, tail];
    assert Split(s) == DropTrailingEmpty([offset] + [place, tail]);
    AllEmptyCons(tail, []);
    AllEmptyCons(place, [tail]);
    DropTrailingEmptyAfterHead(offset, [place, tail]);
  }

  /**
   * A location ending in its only "of " (no earlier "of ", even one running
   * into the final separator) makes `getView` throw, where the split at the
   * first separator shows "".
   */
  lemma SplitLocationFailsOnTrailingSeparator(offset: string)
    requires forall j: nat :: j < |offset| ==> !SeparatorAt(offset + LocationSeparator, j)
    ensures SplitLocation(offset + LocationSeparator) == Failure(ArrayIndexOutOfBounds)
    ensures SplitLocationAtFirst(offset + LocationSeparator) == LocationParts(OffsetText(offset + LocationSeparator), "")
  {
    var s := offset + LocationSeparator;
    assert SeparatorAt(s, |offset|) by {
      assert s[|offset|..|offset| + |LocationSeparator|] == LocationSeparator;
    }
    assert FirstSeparatorAt(s, |offset|);
    assert s[..|offset|] == offset && s[|offset| + |LocationSeparator|..] == "";
    SplitFailsIffOnlySeparatorsFollow(s, |offset|);
  }

  // ---------------------------------------------------------------------------
  // Magnitude colour
  // ---------------------------------------------------------------------------

  /** The colour resources `magnitude1` to `magnitude9` and `magnitude10plus`. */
  datatype MagnitudeColor =
    | Magnitude1 | Magnitude2 | Magnitude3 | Magnitude4 | Magnitude5
    | Magnitude6 | Magnitude7 | Magnitude8 | Magnitude9 | Magnitude10Plus

  /** The bucket a colour resource stands for: 1 to 9, and 10 for `magnitude10plus`. */
  function Level(c: MagnitudeColor): (level: nat)
    ensures 1 <= level <= 10
  {
    match c
    case Magnitude1 => 1
    case Magnitude2 => 2
    case Magnitude3 => 3
    case Magnitude4 => 4
    case Magnitude5 => 5
    case Magnitude6 => 6
    case Magnitude7 => 7
    case Magnitude8 => 8
    case Magnitude9 => 9
    case Magnitude10Plus => 10
  }

  /** The `switch` of `getMagnitudeColor` on the floor of the magnitude. */
  function ColorForFloor(magnitudeFloor: int): (c: MagnitudeColor)
    ensures 0 <= magnitudeFloor <= 1 ==> c == Magnitude1
    ensures 2 <= magnitudeFloor <= 9 ==> Level(c) == magnitudeFloor
    ensures magnitudeFloor < 0 || 10 <= magnitudeFloor ==> c == Magnitude10Plus
  {
    match magnitudeFloor
    case 0 => Magnitude1
    case 1 => Magnitude1
    case 2 => Magnitude2
    case 3 => Magnitude3
    case 4 => Magnitude4
    case 5 => Magnitude5
    case 6 => Magnitude6
    case 7 => Magnitude7
    case 8 => Magnitude8
    case 9 => Magnitude9
    case _ => Magnitude10Plus
  }

  /** `getMagnitudeColor`: the colour resource for a magnitude, by its floor. */
  function GetMagnitudeColor(magnitude: real): (c: MagnitudeColor)
    ensures 0.0 <= magnitude < 2.0 ==> c == Magnitude1
    ensures 2.0 <= magnitude < 10.0 ==> Level(c) == magnitude.Floor && Level(c) as real <= magnitude < Level(c) as real + 1.0
    ensures magnitude < 0.0 || 10.0 <= magnitude ==> c == Magnitude10Plus
  {
    ColorForFloor(magnitude.Floor)
  }

  /** Distinct colour resources stand for distinct buckets. */
  lemma LevelIsInjective(a: MagnitudeColor, b: MagnitudeColor)
    requires Level(a) == Level(b)
    ensures a == b
  {
  }

  /** For non-negative magnitudes a larger magnitude never gets a lower bucket. */
  lemma ColorMonotoneForNonNegative(m1: real, m2: real)
    requires 0.0 <= m1 <= m2
    ensures Level(GetMagnitudeColor(m1)) <= Level(GetMagnitudeColor(m2))
  {
  }

  // ---------------------------------------------------------------------------
  // The list the adapter holds
  // ---------------------------------------------------------------------------

  /** The records an `EarthquakeAdapter` holds, in list order. */
  class EarthquakeAdapter {
    var items: seq<Earthquake>

    constructor (earthquakes: seq<Earthquake>)
      ensures items == earthquakes
    {
      items := earthquakes;
    }

    /** `ArrayAdapter.clear`. */
    method Clear()
      modifies this
      ensures items == []
    {
      items := [];
    }

    /** `ArrayAdapter.addAll`: appends the records, in order. */
    method AddAll(earthquakes: seq<Earthquake>)
      modifies this
      ensures items == old(items) + earthquakes
    {
      items := items + earthquakes;
    }
  }
}
