/** The recommendation service: the prompt built from the mood and the planned stops, and the
    reading of the model's free-text answer, which never fails the caller. The model call and
    `JSON.parse` are oracles. */
module Gemini {
  import opened Wrappers
  import opened Strings
  import opened Types

  /** One element of the parsed recommendation array. */
  datatype Rec = Rec(name: string, description: Option<string>, lat: real, lng: real, address: Option<string>, reason: Option<string>)

  /** The parsed answer to a location request. */
  datatype Analysis = Analysis(locations: seq<string>, mood: Option<string>)

  /** The service: the text the model answers to a prompt (`Err` when the call or the reply fails),
      the two parses (`None` when `JSON.parse` throws, when the parsed value has no `map`, or when
      an element is null or undefined, so that reading its fields throws), and the text `${n}`
      gives for a coordinate. */
  datatype GeminiService = GeminiService(
    generate: string -> Result<string>,
    parseArray: string -> Option<seq<Rec>>,
    parseObject: string -> Option<Analysis>,
    numberText: real -> string)

  // ---------------------------------------------------------------- bracket extraction

  /** Where `/\[[\s\S]*\]/` (or its `{…}` variant) matches in `s`: from the first `open` to the last
      `close`, provided the latter comes after the former. */
  function BracketSpan(s: string, open: char, close: char): (r: Option<(nat, nat)>)
    ensures r.None? <==> forall i, j :: 0 <= i < j < |s| && s[i] == open ==> s[j] != close
    ensures r.Some? ==>
      && r.value.0 < r.value.1 < |s|
      && s[r.value.0] == open && s[r.value.1] == close
      && open !in s[..r.value.0] && close !in s[r.value.1 + 1..]
  {
    if open in s && close in s && IndexOf(s, open) < LastIndexOf(s, close) then
      Some((IndexOf(s, open), LastIndexOf(s, close)))
    else
      NoPairAfterLastClose(s, open, close);
      None
  }

  /** When every `open` comes at or after the last `close`, no `open` is followed by a `close`. */
  lemma NoPairAfterLastClose(s: string, open: char, close: char)
    requires !(open in s && close in s && IndexOf(s, open) < LastIndexOf(s, close))
    ensures forall i, j :: 0 <= i < j < |s| && s[i] == open ==> s[j] != close
  {
    forall i, j | 0 <= i < j < |s| && s[i] == open
      ensures s[j] != close
    {
      assert open in s;
      if close in s {
        var first := IndexOf(s, open);
        var last := LastIndexOf(s, close);
        assert forall m :: 0 <= m < first ==> s[..first][m] == s[m];
        assert forall m :: last < m < |s| ==> s[last + 1..][m - last - 1] == s[m];
      }
    }
  }

  /** The matched text `text.match(...)[0]`. */
  function Extract(s: string, open: char, close: char): (r: Option<string>)
    ensures r.None? <==> BracketSpan(s, open, close).None?
    ensures r.Some? ==> |r.value| >= 2 && r.value[0] == open && r.value[|r.value| - 1] == close
  {
    match BracketSpan(s, open, close)
    case None => None
    case Some((a, b)) => Some(s[a..b + 1])
  }

  // ---------------------------------------------------------------- recommendations

  /** One parsed element as a spot; a missing description or reason becomes `''`. */
  function SpotFromRec(rec: Rec): (spot: RecommendedSpot)
    ensures spot.name == rec.name && spot.location.name == rec.name
    ensures spot.location.lat == rec.lat && spot.location.lng == rec.lng && spot.location.address == rec.address
    ensures rec.description.None? ==> spot.description == ""
    ensures rec.description.Some? ==> spot.description == rec.description.value
    ensures rec.reason.None? ==> spot.reason == ""
    ensures rec.reason.Some? ==> spot.reason == rec.reason.value
  {
    RecommendedSpot(
      rec.name,
      if rec.description.Some? then rec.description.value else "",
      Location(rec.name, rec.lat, rec.lng, rec.address),
      if rec.reason.Some? then rec.reason.value else "")
  }

  /** `parseRecommendations`: the spots of the first `[` … last `]` span, or none when there is no
      span or it does not parse. */
  function ParseRecommendations(svc: GeminiService, text: string): (spots: seq<RecommendedSpot>)
    ensures Extract(text, '[', ']').None? ==> spots == []
    ensures Extract(text, '[', ']').Some? && svc.parseArray(Extract(text, '[', ']').value).None? ==> spots == []
    ensures Extract(text, '[', ']').Some? && svc.parseArray(Extract(text, '[', ']').value).Some? ==>
      var recs := svc.parseArray(Extract(text, '[', ']').value).value;
      |spots| == |recs| && forall i :: 0 <= i < |recs| ==> spots[i] == SpotFromRec(recs[i])
  {
    match Extract(text, '[', ']')
    case None => []
    case Some(json) =>
      match svc.parseArray(json)
      case None => []
      case Some(recs) => seq(|recs|, i requires 0 <= i < |recs| => SpotFromRec(recs[i]))
  }

  /** Every spot read from an answer is named after itself: its location carries the spot's name. */
  lemma SpotsNameTheirLocations(svc: GeminiService, text: string)
    ensures forall i :: 0 <= i < |ParseRecommendations(svc, text)| ==>
      ParseRecommendations(svc, text)[i].location.name == ParseRecommendations(svc, text)[i].name
  {
  }

  // ---------------------------------------------------------------- the prompt

  /** The place text of a stop: its address when that is non-empty, else `lat, lng`. */
  function PlaceText(svc: GeminiService, loc: Location): (t: string)
    ensures loc.address.Some? && loc.address.value != "" ==> t == loc.address.value
    ensures loc.address.None? || loc.address.value == "" ==> t == svc.numberText(loc.lat) + ", " + svc.numberText(loc.lng)
  {
    if loc.address.Some? && loc.address.value != "" then loc.address.value
    else svc.numberText(loc.lat) + ", " + svc.numberText(loc.lng)
  }

  /** `- name (place)`. */
  function LocationLine(svc: GeminiService, loc: Location): (line: string)
    ensures "- " <= line && line[|line| - 1] == ')'
  {
    "- " + loc.name + " (" + PlaceText(svc, loc) + ")"
  }

  /** The planned stops, one line each, joined by newlines. */
  function LocationList(svc: GeminiService, locations: seq<Location>): (text: string)
  {
    Join(seq(|locations|, i requires 0 <= i < |locations| => LocationLine(svc, locations[i])), "\n")
  }

  /** When no stop's line contains a newline, splitting the list at newlines gives back exactly one
      line per stop, in order. */
  lemma LocationListLines(svc: GeminiService, locations: seq<Location>)
    requires |locations| >= 1
    requires forall i :: 0 <= i < |locations| ==> '\n' !in LocationLine(svc, locations[i])
    ensures |Split(LocationList(svc, locations), '\n')| == |locations|
    ensures forall i :: 0 <= i < |locations| ==> Split(LocationList(svc, locations), '\n')[i] == LocationLine(svc, locations[i])
  {
    var lines := seq(|locations|, i requires 0 <= i < |locations| => LocationLine(svc, locations[i]));
    SplitJoin(lines, '\n');
  }

  /** The line naming the traveller's position, empty when there is none. */
  function CurrentLocText(svc: GeminiService, current: Option<Location>): (t: string)
    ensures t != "" <==> current.Some?
    ensures current.Some? ==> "Current location: " <= t
  {
    match current
    case None => ""
    case Some(loc) => "Current location: " + loc.name + " (" + PlaceText(svc, loc) + ")"
  }

  const RecommendationIntro := "You are a travel concierge for foreign tourists visiting Japan."
  const RecommendationInstructions := "Respond with a JSON array of recommended spots."

  /** `buildRecommendationPrompt`: the mood, the planned stops and the current position, between
      the fixed instructions. */
  function BuildRecommendationPrompt(svc: GeminiService, mood: string, locations: seq<Location>, current: Option<Location>): (prompt: string)
  {
    var head := RecommendationIntro + "\n\nUser's mood/preference: " + "\"" + mood + "\"" + "\n";
    head + ("Planned locations:\n" + LocationList(svc, locations) + "\n") + (CurrentLocText(svc, current) + "\n\n" + RecommendationInstructions)
  }

  /** A piece between two others is contained in the whole. */
  lemma ContainsMiddle(a: string, b: string, c: string)
    ensures Contains(a + b + c, b)
  {
    assert b <= (a + b + c)[|a|..];
    ContainsAt(a + b + c, b);
  }

  /** The prompt quotes the mood. */
  lemma PromptQuotesMood(svc: GeminiService, mood: string, locations: seq<Location>, current: Option<Location>)
    ensures Contains(BuildRecommendationPrompt(svc, mood, locations, current), "\"" + mood + "\"")
  {
    var intro := RecommendationIntro + "\n\nUser's mood/preference: ";
    var rest := "\n" + ("Planned locations:\n" + LocationList(svc, locations) + "\n") +
      (CurrentLocText(svc, current) + "\n\n" + RecommendationInstructions);
    assert BuildRecommendationPrompt(svc, mood, locations, current) == intro + ("\"" + mood + "\"") + rest;
    ContainsMiddle(intro, "\"" + mood + "\"", rest);
  }

  /** The prompt carries the whole location list, on lines of its own. */
  lemma PromptListsLocations(svc: GeminiService, mood: string, locations: seq<Location>, current: Option<Location>)
    ensures Contains(BuildRecommendationPrompt(svc, mood, locations, current), "Planned locations:\n" + LocationList(svc, locations) + "\n")
  {
    var head := RecommendationIntro + "\n\nUser's mood/preference: " + "\"" + mood + "\"" + "\n";
    var tail := CurrentLocText(svc, current) + "\n\n" + RecommendationInstructions;
    ContainsMiddle(head, "Planned locations:\n" + LocationList(svc, locations) + "\n", tail);
  }

  /** `recommendSpots`: a failing model call gives no spots rather than an error. */
  function RecommendSpots(svc: GeminiService, mood: string, locations: seq<Location>, current: Option<Location>): (spots: seq<RecommendedSpot>)
    ensures svc.generate(BuildRecommendationPrompt(svc, mood, locations, current)).Err? ==> spots == []
    ensures svc.generate(BuildRecommendationPrompt(svc, mood, locations, current)).Ok? ==>
      spots == ParseRecommendations(svc, svc.generate(BuildRecommendationPrompt(svc, mood, locations, current)).value)
  {
    match svc.generate(BuildRecommendationPrompt(svc, mood, locations, current))
    case Err(_) => []
    case Ok(text) => ParseRecommendations(svc, text)
  }

  // ---------------------------------------------------------------- location requests

  const AnalysisIntro := "You are a travel assistant. Extract the locations and the mood from the request."
  const AnalysisFormat := "Respond ONLY with a valid JSON object with \"locations\" and \"mood\"."

  function AnalysisPrompt(request: string): string
  {
    AnalysisIntro + "\n\nUser request: \"" + request + "\"\n\n" + AnalysisFormat
  }

  /** `analyzeLocationRequest`: the object parsed from the first `{` … last `}` span; no locations
      when the answer holds no such span; the request itself as the only location when the call or
      the parse fails. */
  function AnalyzeLocationRequest(svc: GeminiService, request: string): (a: Analysis)
    ensures svc.generate(AnalysisPrompt(request)).Err? ==> a == Analysis([request], None)
    ensures svc.generate(AnalysisPrompt(request)).Ok? ==>
      var text := svc.generate(AnalysisPrompt(request)).value;
      && (Extract(text, '{', '}').None? ==> a == Analysis([], None))
      && (Extract(text, '{', '}').Some? && svc.parseObject(Extract(text, '{', '}').value).None? ==> a == Analysis([request], None))
      && (Extract(text, '{', '}').Some? && svc.parseObject(Extract(text, '{', '}').value).Some? ==>
            a == svc.parseObject(Extract(text, '{', '}').value).value)
  {
    match svc.generate(AnalysisPrompt(request))
    case Err(_) => Analysis([request], None)
    case Ok(text) =>
      match Extract(text, '{', '}')
      case None => Analysis([], None)
      case Some(json) =>
        match svc.parseObject(json)
        case None => Analysis([request], None)
        case Some(parsed) => parsed
  }
}
