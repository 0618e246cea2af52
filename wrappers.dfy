/** Option and Result values used in place of `undefined` and thrown errors. */
module Wrappers {

  /** A value that may be absent (`undefined` in the source). */
  datatype Option<+T> = None | Some(value: T)

  /** The outcome of an operation that may throw: the value, or the thrown error's message. */
  datatype Result<+T> = Ok(value: T) | Err(error: string)

  /** The values of the successful outcomes, in order (`filter(w => w !== null)`). */
  function Successes<T>(rs: seq<Result<T>>): (vs: seq<T>)
    ensures |vs| <= |rs|
    ensures forall i :: 0 <= i < |rs| && rs[i].Ok? ==> rs[i].value in vs
    ensures forall j :: 0 <= j < |vs| ==> Ok(vs[j]) in rs
  {
    if rs == [] then []
    else
      var rest := Successes(rs[1..]);
      assert forall i :: 1 <= i < |rs| ==> rs[i] == rs[1..][i - 1];
      match rs[0]
      case Ok(v) => [v] + rest
      case Err(_) => rest
  }

  /** Keeping the successes distributes over concatenation, so their order is the order of the inputs. */
  lemma {:induction false} SuccessesAppend<T>(a: seq<Result<T>>, b: seq<Result<T>>)
    ensures Successes(a + b) == Successes(a) + Successes(b)
  {
    if a == [] {
      assert a + b == b;
    } else {
      assert (a + b)[1..] == a[1..] + b;
      SuccessesAppend(a[1..], b);
    }
  }

  /** When every outcome succeeds, nothing is dropped. */
  lemma {:induction false} SuccessesAllOk<T>(rs: seq<Result<T>>)
    requires forall i :: 0 <= i < |rs| ==> rs[i].Ok?
    ensures |Successes(rs)| == |rs|
    ensures forall i :: 0 <= i < |rs| ==> Successes(rs)[i] == rs[i].value
  {
    if rs != [] {
      SuccessesAllOk(rs[1..]);
    }
  }

  /** `xs` followed by whatever the rest of a computation gives, or that computation's error. */
  function Prepend<T>(xs: seq<T>, rest: Result<seq<T>>): Result<seq<T>>
  {
    match rest
    case Ok(ys) => Ok(xs + ys)
    case Err(e) => Err(e)
  }

  /** `xs.map(f)`. */
  function MapSeq<A, B>(f: A -> B, xs: seq<A>): (ys: seq<B>)
    ensures |ys| == |xs| && forall i :: 0 <= i < |xs| ==> ys[i] == f(xs[i])
  {
    seq(|xs|, i requires 0 <= i < |xs| => f(xs[i]))
  }

  /** Mapping one more element appends its image. */
  lemma MapSeqSnoc<A, B>(f: A -> B, xs: seq<A>, i: nat)
    requires i < |xs|
    ensures MapSeq(f, xs[..i + 1]) == MapSeq(f, xs[..i]) + [f(xs[i])]
  {
  }

  /** Prepending twice is prepending the concatenation. */
  lemma PrependTwice<T>(xs: seq<T>, ys: seq<T>, rest: Result<seq<T>>)
    ensures Prepend(xs, Prepend(ys, rest)) == Prepend(xs + ys, rest)
  {
    if rest.Ok? {
      assert xs + (ys + rest.value) == (xs + ys) + rest.value;
    }
  }

  /** Results produced one after the other and awaited in order: all their values, or the error
      of the first one that failed. */
  function Collect<T>(rs: seq<Result<T>>): (r: Result<seq<T>>)
    ensures r.Ok? ==> |r.value| == |rs|
    ensures r.Err? ==> Err(r.error) in rs
  {
    if rs == [] then Ok([])
    else
      match rs[0]
      case Err(e) => Err(e)
      case Ok(v) => Prepend([v], Collect(rs[1..]))
  }

  /** The position of the first failed result, if any. */
  function FirstErr<T>(rs: seq<Result<T>>): (k: Option<nat>)
    ensures k.None? <==> forall j :: 0 <= j < |rs| ==> rs[j].Ok?
    ensures k.Some? ==> k.value < |rs| && rs[k.value].Err? && forall j :: 0 <= j < k.value ==> rs[j].Ok?
  {
    if rs == [] then None
    else if rs[0].Err? then Some(0)
    else
      var k := FirstErr(rs[1..]);
      assert forall j :: 1 <= j < |rs| ==> rs[j] == rs[1..][j - 1];
      if k.None? then None else Some(k.value + 1)
  }

  /** Collecting succeeds with one value per result, in order, exactly when every result does. */
  lemma {:induction false} CollectOk<T>(rs: seq<Result<T>>)
    ensures Collect(rs).Ok? <==> forall j :: 0 <= j < |rs| ==> rs[j].Ok?
    ensures Collect(rs).Ok? ==> |Collect(rs).value| == |rs| && forall j :: 0 <= j < |rs| ==> Ok(Collect(rs).value[j]) == rs[j]
  {
    if rs != [] {
      CollectOk(rs[1..]);
      assert forall j :: 1 <= j < |rs| ==> rs[j] == rs[1..][j - 1];
      if Collect(rs).Ok? {
        var vs := Collect(rs).value;
        assert vs == [rs[0].value] + Collect(rs[1..]).value;
        assert forall j :: 1 <= j < |rs| ==> vs[j] == Collect(rs[1..]).value[j - 1];
      }
    }
  }

  /** A failed collection carries the error of the first failed result. */
  lemma {:induction false} CollectErr<T>(rs: seq<Result<T>>)
    ensures Collect(rs).Err? <==> FirstErr(rs).Some?
    ensures Collect(rs).Err? ==> rs[FirstErr(rs).value] == Err(Collect(rs).error)
  {
    if rs != [] && rs[0].Ok? {
      CollectErr(rs[1..]);
    }
  }

  /** Collecting from position `i`: the result at `i`, then the rest. */
  lemma CollectStep<T>(rs: seq<Result<T>>, i: nat)
    requires i < |rs|
    ensures rs[i].Err? ==> Collect(rs[i..]) == Err(rs[i].error)
    ensures rs[i].Ok? ==> Collect(rs[i..]) == Prepend([rs[i].value], Collect(rs[i + 1..]))
  {
    assert rs[i..][0] == rs[i] && rs[i..][1..] == rs[i + 1..];
  }
}
