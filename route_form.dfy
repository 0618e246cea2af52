/** The route request form: the editable list of place names (never fewer than one field), the
    mood, the traveller's position and the travel preferences, and the request it submits. */
module RouteFormState {
  import opened Wrappers
  import opened Strings
  import opened Types

  /** The travel modes the form offers. */
  const TransportationModes: set<string> := {"walking", "transit", "driving", "mixed"}

  /** `xs.filter((_, i) => i !== index)`. */
  function Without(xs: seq<string>, index: int): (r: seq<string>)
    ensures 0 <= index < |xs| ==> r == xs[..index] + xs[index + 1..]
    ensures !(0 <= index < |xs|) ==> r == xs
    decreases |xs|
  {
    if xs == [] then []
    else (if index == 0 then [] else [xs[0]]) + Without(xs[1..], index - 1)
  }

  /** A field with some non-whitespace text. */
  predicate NonBlank(s: string)
  {
    exists i :: 0 <= i < |s| && !IsWhitespace(s[i])
  }

  /** `s.trim() !== ''` holds exactly for the non-blank fields. */
  lemma NonBlankIsTrimNonEmpty(s: string)
    ensures NonBlank(s) <==> Trim(s) != ""
  {
    TrimEmpty(s);
  }

  /** `locations.filter(loc => loc.trim() !== '')`: the entries with some non-blank text, untrimmed. */
  function ValidLocations(xs: seq<string>): (r: seq<string>)
    ensures |r| <= |xs|
    ensures forall i :: 0 <= i < |r| ==> NonBlank(r[i])
  {
    if xs == [] then []
    else (if NonBlank(xs[0]) then [xs[0]] else []) + ValidLocations(xs[1..])
  }

  /** The kept entries are entries of the form, and every non-blank entry is kept. */
  lemma {:induction false} ValidLocationsKeeps(xs: seq<string>)
    ensures forall s :: s in ValidLocations(xs) ==> s in xs
    ensures forall i :: 0 <= i < |xs| && NonBlank(xs[i]) ==> xs[i] in ValidLocations(xs)
    ensures ValidLocations(xs) == [] <==> forall i :: 0 <= i < |xs| ==> !NonBlank(xs[i])
  {
    if xs != [] {
      ValidLocationsKeeps(xs[1..]);
      assert forall i :: 1 <= i < |xs| ==> xs[i] == xs[1..][i - 1];
    }
  }

  /** Filtering a list in two pieces filters each piece, so the kept entries stay in form order. */
  lemma {:induction false} ValidLocationsAppend(a: seq<string>, b: seq<string>)
    ensures ValidLocations(a + b) == ValidLocations(a) + ValidLocations(b)
  {
    if a == [] {
      assert a + b == b;
    } else {
      assert (a + b)[1..] == a[1..] + b;
      ValidLocationsAppend(a[1..], b);
    }
  }

  /** Filtering again changes nothing. */
  lemma {:induction false} ValidLocationsIdempotent(xs: seq<string>)
    ensures ValidLocations(ValidLocations(xs)) == ValidLocations(xs)
  {
    if xs != [] {
      ValidLocationsIdempotent(xs[1..]);
      if NonBlank(xs[0]) {
        var r := ValidLocations(xs);
        assert r == [xs[0]] + ValidLocations(xs[1..]);
        assert r[0] == xs[0] && r[1..] == ValidLocations(xs[1..]);
        assert NonBlank(r[0]);
        assert ValidLocations(r) == [r[0]] + ValidLocations(r[1..]);
        assert ValidLocations(r[1..]) == ValidLocations(xs[1..]);
      } else {
        assert ValidLocations(xs) == [] + ValidLocations(xs[1..]) == ValidLocations(xs[1..]);
      }
    }
  }

  /** What the form submits, if anything: the non-blank names, the trimmed mood when it is not
      empty, the position when one was obtained, and all three preferences. */
  function SubmitRequest(locations: seq<string>, mood: string, currentLocation: Option<Coords>,
                         transportation: string, avoidTolls: bool, avoidHighways: bool): (r: Option<RouteRequest>)
    ensures r.None? <==> forall i :: 0 <= i < |locations| ==> !NonBlank(locations[i])
    ensures r.Some? ==> r.value.locations == ValidLocations(locations) && r.value.currentLocation == currentLocation
    ensures r.Some? && Trim(mood) == "" ==> r.value.mood.None?
    ensures r.Some? && Trim(mood) != "" ==> r.value.mood == Some(Trim(mood))
    ensures r.Some? ==> r.value.preferences == Some(Preferences(Some(transportation), Some(avoidTolls), Some(avoidHighways)))
  {
    var valid := ValidLocations(locations);
    ValidLocationsKeeps(locations);
    if valid == [] then None
    else
      Some(RouteRequest(valid, if Trim(mood) != "" then Some(Trim(mood)) else None, currentLocation,
        Some(Preferences(Some(transportation), Some(avoidTolls), Some(avoidHighways)))))
  }

  /** A submitted request always names at least one place, and no name in it is blank. */
  lemma SubmittedNamesAreNonBlank(locations: seq<string>, mood: string, currentLocation: Option<Coords>,
                                  transportation: string, avoidTolls: bool, avoidHighways: bool)
    requires SubmitRequest(locations, mood, currentLocation, transportation, avoidTolls, avoidHighways).Some?
    ensures var request := SubmitRequest(locations, mood, currentLocation, transportation, avoidTolls, avoidHighways).value;
      |request.locations| >= 1 && forall i :: 0 <= i < |request.locations| ==> NonBlank(request.locations[i])
    ensures var request := SubmitRequest(locations, mood, currentLocation, transportation, avoidTolls, avoidHighways).value;
      request.mood.Some? ==> request.mood.value != "" && Trim(request.mood.value) == request.mood.value
  {
    var request := SubmitRequest(locations, mood, currentLocation, transportation, avoidTolls, avoidHighways).value;
    if request.mood.Some? {
      assert request.mood.value == Trim(mood);
      TrimIdempotent(mood);
    }
  }

  /** The state of the form. */
  class RouteForm {
    var locations: seq<string>
    var mood: string
    var currentLocation: Option<Coords>
    var transportation: string
    var avoidTolls: bool
    var avoidHighways: bool

    /** There is always at least one place field, and the mode is one the form offers. */
    predicate Valid()
      reads this
    {
      |locations| >= 1 && transportation in TransportationModes
    }

    /** The initial state: one empty place field, no mood, no position, mixed travel, nothing avoided. */
    constructor()
      ensures Valid()
      ensures locations == [""] && mood == "" && currentLocation == None
      ensures transportation == "mixed" && !avoidTolls && !avoidHighways
    {
      locations := [""];
      mood := "";
      currentLocation := None;
      transportation := "mixed";
      avoidTolls := false;
      avoidHighways := false;
    }

    /** `addLocationField`: one more empty field at the end. */
    method AddLocationField()
      requires Valid()
      modifies this
      ensures Valid()
      ensures locations == old(locations) + [""]
      ensures mood == old(mood) && currentLocation == old(currentLocation)
      ensures transportation == old(transportation) && avoidTolls == old(avoidTolls) && avoidHighways == old(avoidHighways)
    {
      locations := locations + [""];
    }

    /** `removeLocationField`: drops the field at `index`, unless it is the only field. */
    method RemoveLocationField(index: int)
      requires Valid()
      modifies this
      ensures Valid()
      ensures |old(locations)| > 1 ==> locations == Without(old(locations), index)
      ensures |old(locations)| == 1 ==> locations == old(locations)
      ensures mood == old(mood) && currentLocation == old(currentLocation)
      ensures transportation == old(transportation) && avoidTolls == old(avoidTolls) && avoidHighways == old(avoidHighways)
    {
      if |locations| > 1 {
        locations := Without(locations, index);
      }
    }

    /** `updateLocation`: the field at `index` takes the typed text. */
    method UpdateLocation(index: int, value: string)
      requires Valid() && 0 <= index < |locations|
      modifies this
      ensures Valid()
      ensures |locations| == |old(locations)| && locations[index] == value
      ensures forall i :: 0 <= i < |locations| && i != index ==> locations[i] == old(locations)[i]
      ensures mood == old(mood) && currentLocation == old(currentLocation)
      ensures transportation == old(transportation) && avoidTolls == old(avoidTolls) && avoidHighways == old(avoidHighways)
    {
      locations := locations[index := value];
    }

    /** The mood text field. */
    method SetMood(value: string)
      requires Valid()
      modifies this
      ensures Valid() && mood == value && locations == old(locations) && currentLocation == old(currentLocation)
      ensures transportation == old(transportation) && avoidTolls == old(avoidTolls) && avoidHighways == old(avoidHighways)
    {
      mood := value;
    }

    /** A position obtained from the browser. */
    method SetCurrentLocation(position: Coords)
      requires Valid()
      modifies this
      ensures Valid() && currentLocation == Some(position) && locations == old(locations) && mood == old(mood)
      ensures transportation == old(transportation) && avoidTolls == old(avoidTolls) && avoidHighways == old(avoidHighways)
    {
      currentLocation := Some(position);
    }

    /** The travel mode selector. */
    method SetTransportation(mode: string)
      requires Valid() && mode in TransportationModes
      modifies this
      ensures Valid() && transportation == mode && locations == old(locations) && mood == old(mood)
      ensures currentLocation == old(currentLocation) && avoidTolls == old(avoidTolls) && avoidHighways == old(avoidHighways)
    {
      transportation := mode;
    }

    /** The two avoid check boxes. */
    method SetAvoid(tolls: bool, highways: bool)
      requires Valid()
      modifies this
      ensures Valid() && avoidTolls == tolls && avoidHighways == highways
      ensures locations == old(locations) && mood == old(mood) && currentLocation == old(currentLocation)
      ensures transportation == old(transportation)
    {
      avoidTolls := tolls;
      avoidHighways := highways;
    }

    /** `handleSubmit`: the request handed to `onSubmit`, or None when every field is blank. */
    method HandleSubmit() returns (r: Option<RouteRequest>)
      ensures r == SubmitRequest(locations, mood, currentLocation, transportation, avoidTolls, avoidHighways)
    {
      var validLocations := ValidLocations(locations);
      if |validLocations| == 0 {
        return None;
      }
      var trimmedMood := Trim(mood);
      r := Some(RouteRequest(validLocations, if trimmedMood != "" then Some(trimmedMood) else None, currentLocation,
        Some(Preferences(Some(transportation), Some(avoidTolls), Some(avoidHighways)))));
    }
  }
}
