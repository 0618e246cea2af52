/** The text the result view derives from a route response: durations in hours and minutes,
    distances in metres, the icon of a travel mode and of a weather condition, and the short list
    of steps shown for a segment. */
module RouteResultView {
  import opened Wrappers
  import opened Strings
  import opened JsValues
  import opened Types

  // ---------------------------------------------------------------- durations

  /** `seconds % 3600` in JavaScript: the remainder takes the sign of the dividend. */
  function JsRem(a: int, b: int): (r: int)
    requires b > 0
    ensures a >= 0 ==> 0 <= r < b && a == (a / b) * b + r
    ensures a < 0 ==> -b < r <= 0 && a == -((-a) / b) * b + r
  {
    if a >= 0 then a % b else -((-a) % b)
  }

  /** Whole hours `Math.floor(seconds / 3600)` and whole minutes `Math.floor((seconds % 3600) / 60)`. */
  function DurationParts(seconds: int): (hm: (int, int))
    ensures seconds >= 0 ==> hm.0 >= 0 && 0 <= hm.1 < 60
    ensures seconds >= 0 ==> 3600 * hm.0 + 60 * hm.1 <= seconds < 3600 * hm.0 + 60 * hm.1 + 60
    ensures seconds < 0 ==> hm.0 < 0 && -60 <= hm.1 <= 0
  {
    var h := seconds / 3600;
    var rem := JsRem(seconds, 3600);
    (h, rem / 60)
  }

  /** `formatDuration`: `{h}時間{m}分` when there is at least one whole hour, else `{m}分`. */
  function FormatDuration(seconds: int): (text: string)
  {
    var (h, m) := DurationParts(seconds);
    if h > 0 then IntToString(h) + "時間" + IntToString(m) + "分" else IntToString(m) + "分"
  }

  /** The printed number holds only digits and perhaps a sign: neither `時` nor `間`. */
  lemma NumberHasNoUnits(n: int)
    ensures '時' !in IntToString(n) && '間' !in IntToString(n)
  {
    var digits := NatToString(if n < 0 then -n else n);
    assert forall i :: 0 <= i < |digits| ==> IsDigit(digits[i]);
    if n < 0 {
      assert IntToString(n) == "-" + digits;
    }
  }

  /** The hours are written exactly when the duration reaches an hour. */
  lemma HoursShownFromOneHour(seconds: int)
    ensures '間' in FormatDuration(seconds) <==> seconds >= 3600
  {
    var (h, m) := DurationParts(seconds);
    NumberHasNoUnits(m);
    if h > 0 {
      var text := FormatDuration(seconds);
      assert text[|IntToString(h)| + 1] == '間';
    } else {
      NumberHasNoUnits(h);
      assert FormatDuration(seconds) == IntToString(m) + "分";
    }
  }

  /** A non-empty run of digits as its value. */
  function ReadNumber(t: string): (n: Option<int>)
    ensures n.Some? <==> t != [] && AllDigits(t)
  {
    if t != [] && AllDigits(t) then Some(DecimalValue(t)) else None
  }

  /** How a reader takes the text back: `{h}時間{m}分` or `{m}分`, as a number of minutes. */
  function ReadDuration(text: string): (minutes: Option<int>)
  {
    if text == [] || text[|text| - 1] != '分' then None
    else ReadAmount(text[..|text| - 1])
  }

  /** The text before `分`: hours, `時間` and minutes, or minutes alone. */
  function ReadAmount(body: string): (minutes: Option<int>)
  {
    if '時' !in body then ReadNumber(body)
    else
      var i := IndexOf(body, '時');
      if i + 1 < |body| && body[i + 1] == '間' then
        var hours := ReadNumber(body[..i]);
        var minutes := ReadNumber(body[i + 2..]);
        if hours.Some? && minutes.Some? then Some(60 * hours.value + minutes.value) else None
      else None
  }

  /** In `prefix + [c] + rest`, with no `c` in the prefix, the first `c` ends the prefix. */
  lemma {:induction false} IndexAfterPrefix(prefix: string, c: char, rest: string)
    requires c !in prefix
    ensures c in prefix + [c] + rest && IndexOf(prefix + [c] + rest, c) == |prefix|
  {
    var s := prefix + [c] + rest;
    assert s[|prefix|] == c;
    if prefix != [] {
      assert s[0] == prefix[0];
      assert s[1..] == prefix[1..] + [c] + rest;
      IndexAfterPrefix(prefix[1..], c, rest);
    }
  }

  /** The pieces of `{h}時間{m}` around its first `時`. */
  lemma HoursUnitSplit(hText: string, mText: string)
    requires '時' !in hText
    ensures var body := hText + ['時'] + ("間" + mText);
      && '時' in body && IndexOf(body, '時') == |hText|
      && body[..|hText|] == hText && body[|hText| + 1] == '間' && body[|hText| + 2..] == mText
  {
    IndexAfterPrefix(hText, '時', "間" + mText);
  }

  /** `{h}時間{m}` reads back as `60 * h + m` minutes. */
  lemma ReadHoursAmount(hText: string, mText: string)
    requires ReadNumber(hText).Some? && ReadNumber(mText).Some?
    ensures ReadAmount(hText + ['時'] + ("間" + mText)) == Some(60 * ReadNumber(hText).value + ReadNumber(mText).value)
  {
    assert '時' !in hText by {
      assert forall i :: 0 <= i < |hText| ==> IsDigit(hText[i]);
    }
    HoursUnitSplit(hText, mText);
  }

  /** `{h}時間{m}分` reads back as `60 * h + m` minutes. */
  lemma ReadHoursAndMinutes(hText: string, mText: string)
    requires ReadNumber(hText).Some? && ReadNumber(mText).Some?
    ensures ReadDuration(hText + "時間" + mText + "分") == Some(60 * ReadNumber(hText).value + ReadNumber(mText).value)
  {
    var text := hText + "時間" + mText + "分";
    assert text[..|text| - 1] == hText + ['時'] + ("間" + mText);
    ReadHoursAmount(hText, mText);
  }

  /** `{m}分` reads back as `m` minutes. */
  lemma ReadMinutes(mText: string)
    requires ReadNumber(mText).Some?
    ensures ReadDuration(mText + "分") == ReadNumber(mText)
  {
    var text := mText + "分";
    assert text[..|text| - 1] == mText;
    assert '時' !in mText by {
      assert forall i :: 0 <= i < |mText| ==> IsDigit(mText[i]);
    }
  }

  /** A printed natural number reads back as itself. */
  lemma ReadPrinted(n: nat)
    ensures ReadNumber(NatToString(n)) == Some(n)
  {
    NatToStringRoundTrip(n);
  }

  /** A count of seconds within a minute of `60 * q` holds `q` whole minutes. */
  lemma WholeMinutes(seconds: int, q: int)
    requires 60 * q <= seconds < 60 * q + 60
    ensures seconds / 60 == q
  {
  }

  /** Reading the text back gives the whole minutes of a non-negative duration: the printed
      hours and minutes lose nothing but the leftover seconds. */
  lemma FormatDurationReadsBack(seconds: int)
    requires seconds >= 0
    ensures ReadDuration(FormatDuration(seconds)) == Some(seconds / 60)
  {
    var (h, m) := DurationParts(seconds);
    WholeMinutes(seconds, 60 * h + m);
    ReadPrinted(m);
    if h > 0 {
      ReadPrinted(h);
      ReadHoursAndMinutes(NatToString(h), NatToString(m));
    } else {
      ReadMinutes(NatToString(m));
    }
  }

  // ---------------------------------------------------------------- distances

  /** What `formatDistance` shows: the metres as written below a kilometre; from a kilometre on,
      a one-decimal kilometre figure produced by `toFixed`, kept here as the distance it shows. */
  datatype DistanceText = Metres(text: string) | Kilometres(meters: int)

  function FormatDistance(meters: int): (d: DistanceText)
    ensures meters < 1000 <==> d.Metres?
    ensures d.Kilometres? ==> d.meters == meters
    ensures d.Metres? ==> |d.text| >= 2 && d.text[|d.text| - 1] == 'm'
  {
    if meters >= 1000 then Kilometres(meters) else Metres(IntToString(meters) + "m")
  }

  /** Below a kilometre the text is the number of metres followed by `m`, and reads back as it. */
  lemma MetresReadBack(meters: int)
    requires 0 <= meters < 1000
    ensures var t := FormatDistance(meters).text;
      AllDigits(t[..|t| - 1]) && DecimalValue(t[..|t| - 1]) == meters
  {
    var t := FormatDistance(meters).text;
    assert t[..|t| - 1] == NatToString(meters);
    NatToStringRoundTrip(meters);
  }

  // ---------------------------------------------------------------- icons

  const WalkingIcon := "\U{1F6B6}"
  const TransitIcon := "\U{1F683}"
  const DrivingIcon := "\U{1F697}"
  const PinIcon := "\U{1F4CD}"

  /** `getTransportationIcon`: a person, a train or a car for the three modes, a pin otherwise
      (`mixed` included). */
  function TransportationIcon(transportation: string): (icon: string)
    ensures transportation == "walking" <==> icon == WalkingIcon
    ensures transportation == "transit" <==> icon == TransitIcon
    ensures transportation == "driving" <==> icon == DrivingIcon
    ensures transportation !in {"walking", "transit", "driving"} <==> icon == PinIcon
  {
    match transportation
    case "walking" => WalkingIcon
    case "transit" => TransitIcon
    case "driving" => DrivingIcon
    case _ => PinIcon
  }

  /** Every mode a segment can carry gets its own icon, never the pin. */
  lemma SegmentModesHaveDistinctIcons(a: Transportation, b: Transportation)
    ensures TransportationIcon(a.Name()) != PinIcon
    ensures TransportationIcon(a.Name()) == TransportationIcon(b.Name()) <==> a == b
  {
  }

  const RainIcon := "\U{1F327}\U{FE0F}"
  const SnowIcon := "\U{2744}\U{FE0F}"
  const CloudIcon := "\U{2601}\U{FE0F}"
  const ClearIcon := "\U{2600}\U{FE0F}"
  const FogIcon := "\U{1F32B}\U{FE0F}"
  const ThunderIcon := "\U{26C8}\U{FE0F}"
  const DefaultWeatherIcon := "\U{1F324}\U{FE0F}"

  /** `getWeatherIcon`: the first keyword test on the lower-cased condition that succeeds decides. */
  function WeatherIcon(condition: string): (icon: string)
  {
    var lower := Lower(condition);
    if Contains(lower, "rain") || Contains(lower, "shower") then RainIcon
    else if Contains(lower, "snow") then SnowIcon
    else if Contains(lower, "cloud") then CloudIcon
    else if Contains(lower, "clear") || Contains(lower, "sun") then ClearIcon
    else if Contains(lower, "fog") then FogIcon
    else if Contains(lower, "thunder") then ThunderIcon
    else DefaultWeatherIcon
  }

  /** The rules as a table: keywords and the icon they select, in the order they are tried. */
  const WeatherRules: seq<(seq<string>, string)> := [
    (["rain", "shower"], RainIcon),
    (["snow"], SnowIcon),
    (["cloud"], CloudIcon),
    (["clear", "sun"], ClearIcon),
    (["fog"], FogIcon),
    (["thunder"], ThunderIcon)]

  /** Some keyword of the list occurs in `text`. */
  predicate MentionsAny(text: string, keywords: seq<string>)
  {
    keywords != [] && (Contains(text, keywords[0]) || MentionsAny(text, keywords[1..]))
  }

  /** The icon of the first rule of the table whose keywords occur in `text`, else the default. */
  function FirstRuleIcon(text: string, rules: seq<(seq<string>, string)>): (icon: string)
    ensures (forall i :: 0 <= i < |rules| ==> !MentionsAny(text, rules[i].0)) ==> icon == DefaultWeatherIcon
    ensures forall i :: (0 <= i < |rules| && MentionsAny(text, rules[i].0) &&
      (forall j :: 0 <= j < i ==> !MentionsAny(text, rules[j].0))) ==> icon == rules[i].1
  {
    if rules == [] then DefaultWeatherIcon
    else if MentionsAny(text, rules[0].0) then rules[0].1
    else
      var icon := FirstRuleIcon(text, rules[1..]);
      assert forall i :: 1 <= i < |rules| ==> rules[i] == rules[1..][i - 1];
      icon
  }

  /** A keyword list of one or two entries mentions what its entries do. */
  lemma MentionsListed(text: string, a: string, b: string)
    ensures MentionsAny(text, [a]) == Contains(text, a)
    ensures MentionsAny(text, [a, b]) == (Contains(text, a) || Contains(text, b))
  {
    assert [a][1..] == [];
    assert [a, b][1..] == [b];
    assert [b][1..] == [];
  }

  /** Trying the table from rule `k` on: rule `k` decides if its keywords occur, else the rest. */
  lemma FirstRuleStep(text: string, rules: seq<(seq<string>, string)>, k: nat)
    requires k < |rules|
    ensures FirstRuleIcon(text, rules[k..]) ==
      if MentionsAny(text, rules[k].0) then rules[k].1 else FirstRuleIcon(text, rules[k + 1..])
  {
    assert rules[k..][0] == rules[k] && rules[k..][1..] == rules[k + 1..];
  }

  /** The if-chain is the table read top to bottom. */
  lemma WeatherIconFollowsRules(condition: string)
    ensures WeatherIcon(condition) == FirstRuleIcon(Lower(condition), WeatherRules)
  {
    var lower := Lower(condition);
    var rules := WeatherRules;
    MentionsListed(lower, "rain", "shower");
    MentionsListed(lower, "snow", "");
    MentionsListed(lower, "cloud", "");
    MentionsListed(lower, "clear", "sun");
    MentionsListed(lower, "fog", "");
    MentionsListed(lower, "thunder", "");
    assert rules[0..] == rules;
    FirstRuleStep(lower, rules, 0);
    FirstRuleStep(lower, rules, 1);
    FirstRuleStep(lower, rules, 2);
    FirstRuleStep(lower, rules, 3);
    FirstRuleStep(lower, rules, 4);
    FirstRuleStep(lower, rules, 5);
    assert rules[6..] == [];
  }

  /** The icon does not depend on the case of the condition. */
  lemma WeatherIconIgnoresCase(condition: string)
    ensures WeatherIcon(Lower(condition)) == WeatherIcon(condition)
  {
    LowerIdempotent(condition);
  }

  /** An earlier rule wins over a later one: a condition mentioning clouds and thunder, but no
      rain, showers or snow, shows the cloud icon. */
  lemma EarlierRuleWins(condition: string)
    requires Contains(Lower(condition), "cloud") && Contains(Lower(condition), "thunder")
    requires !Contains(Lower(condition), "rain") && !Contains(Lower(condition), "shower") && !Contains(Lower(condition), "snow")
    ensures WeatherIcon(condition) == CloudIcon && WeatherIcon(condition) != ThunderIcon
  {
  }

  /** The condition of a weather card: the icon of its text, or None when it is not a string and
      lower-casing it throws. */
  function ConditionIcon(condition: JsValue): (icon: Option<string>)
    ensures condition.Str? <==> icon.Some?
    ensures condition.Str? ==> icon == Some(WeatherIcon(condition.s))
  {
    if condition.Str? then Some(WeatherIcon(condition.s)) else None
  }

  // ---------------------------------------------------------------- steps

  /** `steps.slice(0, 5)`. */
  function VisibleSteps(steps: seq<RouteStep>): (shown: seq<RouteStep>)
    ensures |shown| <= 5 && shown <= steps
    ensures |shown| == |steps| <==> |steps| <= 5
  {
    if |steps| <= 5 then steps else steps[..5]
  }

  /** The "… others" line: how many steps are not listed, present only when some are hidden. */
  function HiddenStepCount(steps: seq<RouteStep>): (count: Option<nat>)
    ensures count.Some? <==> |steps| > 5
    ensures count.Some? ==> count.value >= 1
  {
    if |steps| > 5 then Some(|steps| - 5) else None
  }

  /** The listed steps and the hidden count account for every step exactly once. */
  lemma StepsAccountedFor(steps: seq<RouteStep>)
    ensures |VisibleSteps(steps)| + (if HiddenStepCount(steps).Some? then HiddenStepCount(steps).value else 0) == |steps|
    ensures HiddenStepCount(steps).Some? ==> steps == VisibleSteps(steps) + steps[5..]
  {
  }
}
