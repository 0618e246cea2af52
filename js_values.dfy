/** The JavaScript values an untyped upstream payload can hold, with the two fallback
    operators of the language: `??` (skips `null` and `undefined`) and `||` (skips every falsy value). */
module JsValues {
  import opened Wrappers
  import opened Strings

  /** A value as JavaScript sees it after `JSON.parse`; `Undefined` is a missing property. */
  datatype JsValue =
    | Undefined
    | Null
    | Bool(b: bool)
    | Num(n: real)
    | Str(s: string)
    | Arr(items: seq<JsValue>)
    | Obj(fields: map<string, JsValue>)

  /** The values `??` and `?.` treat as absent. */
  predicate Nullish(v: JsValue)
  {
    v.Undefined? || v.Null?
  }

  /** The values `||` and `if (...)` treat as false (a parsed number is never NaN). */
  predicate Falsy(v: JsValue)
  {
    v.Undefined? || v.Null? || v == Bool(false) || v == Num(0.0) || v == Str("")
  }

  /** `c[0] ?? c[1] ?? ... ?? fallback`: the first candidate that is neither null nor undefined. */
  function FirstDefined(candidates: seq<JsValue>, fallback: JsValue): (r: JsValue)
    ensures !Nullish(fallback) ==> !Nullish(r)
    ensures (forall i :: 0 <= i < |candidates| ==> Nullish(candidates[i])) ==> r == fallback
    ensures forall k :: 0 <= k < |candidates| && !Nullish(candidates[k]) ==>
      (forall j :: 0 <= j < k ==> Nullish(candidates[j])) ==> r == candidates[k]
  {
    if candidates == [] then fallback
    else if !Nullish(candidates[0]) then candidates[0]
    else FirstDefined(candidates[1..], fallback)
  }

  /** `c[0] || c[1] || ... || fallback`: the first candidate that is truthy. */
  function FirstTruthy(candidates: seq<JsValue>, fallback: JsValue): (r: JsValue)
    ensures !Falsy(fallback) ==> !Falsy(r)
    ensures (forall i :: 0 <= i < |candidates| ==> Falsy(candidates[i])) ==> r == fallback
    ensures forall k :: 0 <= k < |candidates| && !Falsy(candidates[k]) ==>
      (forall j :: 0 <= j < k ==> Falsy(candidates[j])) ==> r == candidates[k]
  {
    if candidates == [] then fallback
    else if !Falsy(candidates[0]) then candidates[0]
    else FirstTruthy(candidates[1..], fallback)
  }

  /** `??` keeps a present zero or empty string that `||` skips. */
  lemma DefinedKeepsFalsyValues(v: JsValue, rest: seq<JsValue>, fallback: JsValue)
    requires Falsy(v) && !Nullish(v)
    ensures FirstDefined([v] + rest, fallback) == v
    ensures FirstTruthy([v] + rest, fallback) == FirstTruthy(rest, fallback)
  {
    assert ([v] + rest)[1..] == rest;
  }

  /** `v?.key` (and `v.key` on a value that is not nullish): the property, or undefined. */
  function Get(v: JsValue, key: string): (r: JsValue)
    ensures !v.Obj? ==> r == Undefined
  {
    if v.Obj? && key in v.fields then v.fields[key] else Undefined
  }

  /** `v?.[i]`: the element of an array, the one-character string of a string, the property
      named by the index on an object; undefined past the end and on anything else. */
  function At(v: JsValue, i: nat): (r: JsValue)
    ensures v.Arr? ==> r == (if i < |v.items| then v.items[i] else Undefined)
    ensures v.Str? ==> r == (if i < |v.s| then Str([v.s[i]]) else Undefined)
    ensures v.Obj? ==> r == Get(v, NatToString(i))
    ensures Nullish(v) || v.Num? || v.Bool? ==> r == Undefined
  {
    match v
    case Arr(items) => if i < |items| then items[i] else Undefined
    case Str(s) => if i < |s| then Str([s[i]]) else Undefined
    case Obj(_) => Get(v, NatToString(i))
    case _ => Undefined
  }

  /** `Number(s)` for a string: blank text is zero, an optionally signed run of decimal digits is
      its value, and anything else is taken as NaN (None). */
  function StringToNumber(s: string): Option<real>
  {
    var t := Trim(s);
    if t == "" then Some(0.0)
    else if AllDigits(t) then Some(DecimalValue(t) as real)
    else if (t[0] == '-' || t[0] == '+') && |t| > 1 && AllDigits(t[1..]) then
      Some(if t[0] == '-' then -(DecimalValue(t[1..]) as real) else DecimalValue(t[1..]) as real)
    else None
  }

  /** Blank text is zero, and any other text that converts holds a decimal digit. */
  lemma StringToNumberNeedsDigits(s: string)
    ensures Trim(s) == "" ==> StringToNumber(s) == Some(0.0)
    ensures StringToNumber(s).Some? && Trim(s) != "" ==> exists k :: 0 <= k < |Trim(s)| && IsDigit(Trim(s)[k])
  {
    var t := Trim(s);
    if t != "" && StringToNumber(s).Some? {
      if AllDigits(t) {
        assert IsDigit(t[0]);
      } else {
        assert IsDigit(t[1..][0]) && t[1..][0] == t[1];
      }
    }
  }

  /** The value of a converted text: its digits read in decimal, negated after a `-` sign. */
  lemma StringToNumberReadsDecimal(s: string)
    ensures Trim(s) != "" && AllDigits(Trim(s)) ==> StringToNumber(s) == Some(DecimalValue(Trim(s)) as real)
    ensures |Trim(s)| > 1 && Trim(s)[0] == '-' && AllDigits(Trim(s)[1..]) ==>
      StringToNumber(s) == Some(-(DecimalValue(Trim(s)[1..]) as real))
    ensures |Trim(s)| > 1 && Trim(s)[0] == '+' && AllDigits(Trim(s)[1..]) ==>
      StringToNumber(s) == Some(DecimalValue(Trim(s)[1..]) as real)
  {
  }

  /** `Number(v)`; None stands for NaN. An array converts through its text, so only the empty
      array and a one-element array of a convertible value give a number. */
  function ToNumber(v: JsValue): (r: Option<real>)
    ensures v.Num? ==> r == Some(v.n)
    ensures v.Undefined? || v.Obj? ==> r.None?
    ensures v.Null? ==> r == Some(0.0)
  {
    match v
    case Undefined => None
    case Null => Some(0.0)
    case Bool(b) => Some(if b then 1.0 else 0.0)
    case Num(n) => Some(n)
    case Str(s) => StringToNumber(s)
    case Arr(items) =>
      if items == [] then Some(0.0)
      else if |items| > 1 then None
      else if Nullish(items[0]) then Some(0.0)
      else if items[0].Num? || items[0].Str? || items[0].Arr? then ToNumber(items[0])
      else None
    case Obj(_) => None
  }

  /** The message of the TypeError thrown by `v.key` when `v` is null or undefined. */
  function ReadError(v: JsValue, key: string): string
    requires Nullish(v)
  {
    "Cannot read properties of " + (if v.Null? then "null" else "undefined") + " (reading '" + key + "')"
  }
}
