/** Form values as the schemas receive them, after numeric coercion, and the
    issues a schema reports about them. Shared by both schema modules. */
module FormInput {

  /** A position as the dialog submits it: the direction as the chosen enum
      string, lot and open as the numbers the text fields coerce to. */
  datatype RawPosition = RawPosition(direction: string, lot: real, open: real)

  /** The calculator form's values: the chosen pair string, the coerced
      closing price and the positions added so far. */
  datatype RawRequest = RawRequest(pair: string, close: real, positions: seq<RawPosition>)

  /** The issues the schemas can raise on already-numeric input: zod's
      `invalid_enum_value`; the `invalid_type` issue that `.int()` raises,
      with expected "integer" and received "float"; and `too_small`. */
  datatype IssueCode = InvalidEnumValue | ExpectedInteger | TooSmall

  /** One step of the path to the offending field: an object key or an array index. */
  datatype PathSegment = Key(name: string) | Index(i: nat)

  /** A failed check, tied to the field it failed on. */
  datatype FieldError = FieldError(path: seq<PathSegment>, code: IssueCode)

  datatype Option<+T> = None | Some(value: T)

  /** A parse either yields the typed value or lists every failed check. */
  datatype Result<+T> = Success(value: T) | Failure(errors: seq<FieldError>) {
    /** The issues reported, none on success. */
    function Errors(): seq<FieldError> {
      if Failure? then errors else []
    }
  }

  /** A number with no fractional part, as `Number.isInteger` decides it. */
  predicate IsInteger(x: real) {
    x == x.Floor as real
  }

  /** The issue raised by `.int()`, if any: one, exactly for a number with a
      fractional part. */
  function IntIssues(x: real): (codes: seq<IssueCode>)
    ensures codes == [] <==> IsInteger(x)
    ensures codes != [] ==> codes == [ExpectedInteger]
  {
    if IsInteger(x) then [] else [ExpectedInteger]
  }

  /** The issue raised by `.positive()`, if any: one, exactly for a number
      that is not above 0. */
  function PositiveIssues(x: real): (codes: seq<IssueCode>)
    ensures codes == [] <==> x > 0.0
    ensures codes != [] ==> codes == [TooSmall]
  {
    if x > 0.0 then [] else [TooSmall]
  }

  /** The issues of `number().int().positive()`, in check order. */
  function IntPositiveIssues(x: real): seq<IssueCode> {
    IntIssues(x) + PositiveIssues(x)
  }

  /** Issue codes reported on the field `key` of an object. */
  function At(key: string, codes: seq<IssueCode>): (errs: seq<FieldError>)
    ensures |errs| == |codes|
    ensures forall e :: e in errs <==> e.path == [Key(key)] && e.code in codes
  {
    var errs := seq(|codes|, i requires 0 <= i < |codes| => FieldError([Key(key)], codes[i]));
    assert forall i :: 0 <= i < |codes| ==> errs[i] == FieldError([Key(key)], codes[i]);
    errs
  }

  /** Issues of a nested value, reported one level further out. */
  function Nest(seg: PathSegment, errs: seq<FieldError>): (nested: seq<FieldError>)
    ensures |nested| == |errs|
  {
    var nested := seq(|errs|, i requires 0 <= i < |errs| => FieldError([seg] + errs[i].path, errs[i].code));
    assert forall i :: 0 <= i < |errs| ==> nested[i] == FieldError([seg] + errs[i].path, errs[i].code);
    nested
  }

  /** A path of two or more steps is its first step, its second step and
      the rest. */
  lemma SplitPath(path: seq<PathSegment>)
    requires |path| >= 2
    ensures path == [path[0]] + ([path[1]] + path[2..])
  {
    assert path == path[..2] + path[2..];
  }

  /** Every issue of the nested value is reported, one level further out. */
  lemma NestReports(seg: PathSegment, errs: seq<FieldError>, e: FieldError)
    requires e in errs
    ensures FieldError([seg] + e.path, e.code) in Nest(seg, errs)
  {
    var k :| 0 <= k < |errs| && errs[k] == e;
    assert Nest(seg, errs)[k] == FieldError([seg] + e.path, e.code);
  }

  /** Every nested issue comes from an issue of the nested value, one level
      further in. */
  lemma NestOrigin(seg: PathSegment, errs: seq<FieldError>, e: FieldError)
    requires e in Nest(seg, errs)
    ensures |e.path| > 0 && e.path[0] == seg && FieldError(e.path[1..], e.code) in errs
  {
    var k :| 0 <= k < |errs| && Nest(seg, errs)[k] == e;
    assert e.path[1..] == errs[k].path;
  }

  /** The array schema's merge of its elements' results: the parsed
      elements in order when every element passed, otherwise every
      element's issues, each reported under the element's index. */
  function MergeArray<T>(results: seq<Result<T>>): (r: Result<seq<T>>)
    ensures r.Success? ==> |r.value| == |results|
  {
    if results == [] then Success([])
    else
      var n := |results| - 1;
      var init := MergeArray(results[..n]);
      var last := results[n];
      if init.Success? && last.Success? then Success(init.value + [last.value])
      else Failure(init.Errors() + Nest(Index(n), last.Errors()))
  }

  /** The merge succeeds exactly when every element passed. */
  lemma {:induction false} MergeArrayAccepts<T>(results: seq<Result<T>>)
    ensures MergeArray(results).Success? <==> forall i :: 0 <= i < |results| ==> results[i].Success?
  {
    if results != [] {
      var n := |results| - 1;
      MergeArrayAccepts(results[..n]);
      assert forall i :: 0 <= i < n ==> results[..n][i] == results[i];
    }
  }

  /** On success, the merge yields each element's own value, in order. */
  lemma {:induction false} MergeArrayElementwise<T>(results: seq<Result<T>>)
    requires MergeArray(results).Success?
    ensures forall i :: 0 <= i < |results| ==> results[i] == Success(MergeArray(results).value[i])
  {
    if results != [] {
      var n := |results| - 1;
      MergeArrayElementwise(results[..n]);
      forall i | 0 <= i < n
        ensures results[i] == Success(MergeArray(results).value[i])
      {
        assert results[..n][i] == results[i];
      }
    }
  }

  /** When every failed element reports an issue, so does a failed merge. */
  lemma {:induction false} MergeArrayReported<T>(results: seq<Result<T>>)
    requires forall i :: 0 <= i < |results| && results[i].Failure? ==> |results[i].errors| > 0
    ensures MergeArray(results).Failure? ==> |MergeArray(results).errors| > 0
  {
    if results != [] {
      var n := |results| - 1;
      assert forall i :: 0 <= i < n ==> results[..n][i] == results[i];
      MergeArrayReported(results[..n]);
    }
  }

  /** Each issue of element `i` is reported by the merge under index `i`. */
  lemma {:induction false} MergeArrayReportsIssue<T>(results: seq<Result<T>>, i: nat, e: FieldError)
    requires i < |results| && e in results[i].Errors()
    ensures FieldError([Index(i)] + e.path, e.code) in MergeArray(results).Errors()
  {
    var n := |results| - 1;
    assert MergeArray(results).Errors() == MergeArray(results[..n]).Errors() + Nest(Index(n), results[n].Errors());
    if i < n {
      assert results[..n][i] == results[i];
      MergeArrayReportsIssue(results[..n], i, e);
    } else {
      NestReports(Index(n), results[n].Errors(), e);
    }
  }

  /** Every issue of the merge is an issue of one element, reported under
      that element's index. */
  lemma {:induction false} MergeArrayIssueOrigin<T>(results: seq<Result<T>>, e: FieldError)
    requires e in MergeArray(results).Errors()
    ensures |e.path| > 0 && e.path[0].Index? && e.path[0].i < |results|
    ensures FieldError(e.path[1..], e.code) in results[e.path[0].i].Errors()
  {
    var n := |results| - 1;
    var init := MergeArray(results[..n]);
    if e in init.Errors() {
      MergeArrayIssueOrigin(results[..n], e);
      assert results[..n][e.path[0].i] == results[e.path[0].i];
    } else {
      NestOrigin(Index(n), results[n].Errors(), e);
    }
  }
}
