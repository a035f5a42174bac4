/** The calculator form's data model: the Direction and Pair enums, the
    pair picker's items, the position and request shapes, and the schemas
    that decide which form values reach the valuation. */
module CalcSchema {
  import opened FormInput

  /** Trade directions. */
  datatype Direction = Buy | Sell

  /** The enum string of a direction. */
  function DirectionString(d: Direction): string {
    match d
    case Buy => "buy"
    case Sell => "sell"
  }

  /** `nativeEnum(Direction)`: only the enum's strings are accepted. */
  function ParseDirection(s: string): (r: Option<Direction>)
    ensures r.Some? ==> DirectionString(r.value) == s
  {
    if s == "buy" then Some(Buy)
    else if s == "sell" then Some(Sell)
    else None
  }

  /** Every direction's string is accepted back as that direction, and no
      other string is accepted. */
  lemma DirectionStrings(d: Direction, s: string)
    ensures ParseDirection(DirectionString(d)) == Some(d)
    ensures ParseDirection(s).Some? <==> s == "buy" || s == "sell"
  {
  }

  /** Tradeable pairs. */
  datatype Pair = AUDCADc | EURUSDc

  /** The enum key of a pair, used as its label. */
  function PairKey(p: Pair): string {
    match p
    case AUDCADc => "AUDCADc"
    case EURUSDc => "EURUSDc"
  }

  /** The enum string of a pair, the value the form holds. */
  function PairString(p: Pair): string {
    match p
    case AUDCADc => "audcadc"
    case EURUSDc => "eurusdc"
  }

  /** `nativeEnum(Pair)`: only the enum's strings are accepted. */
  function ParsePair(s: string): (r: Option<Pair>)
    ensures r.Some? ==> PairString(r.value) == s
  {
    if s == "audcadc" then Some(AUDCADc)
    else if s == "eurusdc" then Some(EURUSDc)
    else None
  }

  /** Every pair's string is accepted back as that pair; keys are not values. */
  lemma PairStrings(p: Pair, q: Pair)
    ensures ParsePair(PairString(p)) == Some(p)
    ensures ParsePair(PairKey(q)) == None
    ensures ParsePair("") == None
  {
  }

  /** The enum's members in declaration order, as `Object.entries` lists them. */
  const AllPairs: seq<Pair> := [AUDCADc, EURUSDc]

  /** One option of the pair picker: the label it shows (`label` is reserved in
      Dafny) and the value it selects. */
  datatype PairItem = PairItem(labelText: string, value: string)

  /** The label/value item of each pair, in order. */
  function Entries(ps: seq<Pair>): (items: seq<PairItem>)
    ensures |items| == |ps|
    ensures forall i :: 0 <= i < |ps| ==> items[i] == PairItem(PairKey(ps[i]), PairString(ps[i]))
  {
    if ps == [] then [] else [PairItem(PairKey(ps[0]), PairString(ps[0]))] + Entries(ps[1..])
  }

  /** The pair picker's items. */
  function PairItems(): (items: seq<PairItem>)
    ensures items == [PairItem("AUDCADc", "audcadc"), PairItem("EURUSDc", "eurusdc")]
  {
    Entries(AllPairs)
  }

  /** The picker offers each pair exactly once, in declaration order, labelled
      by its key, with a value the pair schema accepts as that very pair. */
  lemma PairItemsOnePerPair(p: Pair)
    ensures |PairItems()| == |AllPairs| == 2
    ensures exists i :: 0 <= i < |AllPairs| && AllPairs[i] == p
    ensures forall i, j :: 0 <= i < j < |AllPairs| ==> AllPairs[i] != AllPairs[j]
    ensures forall i :: 0 <= i < |AllPairs| ==>
      PairItems()[i].labelText == PairKey(AllPairs[i]) && ParsePair(PairItems()[i].value) == Some(AllPairs[i])
  {
    assert p == AllPairs[if p == AUDCADc then 0 else 1];
    forall i | 0 <= i < |AllPairs|
      ensures ParsePair(PairItems()[i].value) == Some(AllPairs[i])
    {
      PairStrings(AllPairs[i], AllPairs[i]);
    }
  }

  /** A position as the valuation receives it. */
  datatype Position = Position(direction: Direction, lot: real, open: int)

  /** The invariant of a position: a positive lot and a positive opening
      price. */
  predicate ValidPosition(p: Position) {
    p.lot > 0.0 && p.open > 0
  }

  /** The form values a position is entered as. */
  function PositionToRaw(p: Position): RawPosition {
    RawPosition(DirectionString(p.direction), p.lot, p.open as real)
  }

  /** The rule of `PositionSchema`: a known direction, a positive lot and a
      positive integral opening price. */
  predicate AcceptsPosition(raw: RawPosition) {
    && ParseDirection(raw.direction).Some?
    && raw.lot > 0.0
    && IsInteger(raw.open)
    && raw.open > 0.0
  }

  /** A check of `PositionSchema` that the raw position fails, with its issue. */
  predicate PositionViolation(raw: RawPosition, e: FieldError) {
    || (e == FieldError([Key("direction")], InvalidEnumValue) && ParseDirection(raw.direction).None?)
    || (e == FieldError([Key("lot")], TooSmall) && raw.lot <= 0.0)
    || (e == FieldError([Key("open")], ExpectedInteger) && !IsInteger(raw.open))
    || (e == FieldError([Key("open")], TooSmall) && raw.open <= 0.0)
  }

  /** `PositionSchema`: parses a position, or reports each failed check. */
  function ParsePosition(raw: RawPosition): (r: Result<Position>)
    ensures r.Success? <==> AcceptsPosition(raw)
    ensures r.Success? ==> ValidPosition(r.value) && PositionToRaw(r.value) == raw
    ensures r.Failure? ==> |r.errors| > 0
    ensures forall e :: e in r.Errors() <==> PositionViolation(raw, e)
  {
    var direction := ParseDirection(raw.direction);
    var errors :=
      At("direction", if direction.None? then [InvalidEnumValue] else [])
      + At("lot", PositiveIssues(raw.lot))
      + At("open", IntPositiveIssues(raw.open));
    if errors == [] then Success(Position(direction.value, raw.lot, raw.open.Floor))
    else Failure(errors)
  }

  /** Parsing inverts entering: a position's form values parse back to that
      very position exactly when it is valid. */
  lemma PositionRoundTrip(p: Position)
    ensures ParsePosition(PositionToRaw(p)).Success? <==> ValidPosition(p)
    ensures ValidPosition(p) ==> ParsePosition(PositionToRaw(p)) == Success(p)
  {
    DirectionStrings(p.direction, "");
    assert IsInteger(p.open as real);
  }

  /** A position is valid exactly when its form values pass the rule of
      `PositionSchema`. */
  lemma ValidPositionAccepted(p: Position)
    ensures ValidPosition(p) <==> AcceptsPosition(PositionToRaw(p))
  {
    DirectionStrings(p.direction, "");
    assert IsInteger(p.open as real);
  }

  /** The aggregate input of the valuation. */
  datatype CalcRequest = CalcRequest(pair: Pair, close: int, positions: seq<Position>)

  /** The invariant of a request: a positive closing price and valid
      positions. */
  predicate ValidRequest(req: CalcRequest) {
    && req.close > 0
    && forall i :: 0 <= i < |req.positions| ==> ValidPosition(req.positions[i])
  }

  /** The form values a request is entered as. */
  function RequestToRaw(req: CalcRequest): RawRequest {
    RawRequest(PairString(req.pair), req.close as real, PositionsToRaw(req.positions))
  }

  /** The form values of each position, in order. */
  function PositionsToRaw(ps: seq<Position>): (raws: seq<RawPosition>)
    ensures |raws| == |ps|
    ensures forall i :: 0 <= i < |ps| ==> raws[i] == PositionToRaw(ps[i])
  {
    if ps == [] then [] else PositionsToRaw(ps[..|ps| - 1]) + [PositionToRaw(ps[|ps| - 1])]
  }

  /** The rule of `CalcForm.Schema`: a known pair, a positive integral closing
      price and positions that each satisfy `PositionSchema`. */
  predicate AcceptsRequest(raw: RawRequest) {
    && ParsePair(raw.pair).Some?
    && IsInteger(raw.close)
    && raw.close > 0.0
    && forall i :: 0 <= i < |raw.positions| ==> AcceptsPosition(raw.positions[i])
  }

  /** A request is valid exactly when its form values pass the rule of
      `CalcForm.Schema`. */
  lemma ValidRequestAccepted(req: CalcRequest)
    ensures ValidRequest(req) <==> AcceptsRequest(RequestToRaw(req))
  {
    PairStrings(req.pair, req.pair);
    assert IsInteger(req.close as real);
  }

  /** The result of `PositionSchema` on each element, in order. */
  function ParseEach(raws: seq<RawPosition>): (results: seq<Result<Position>>)
    ensures |results| == |raws|
    ensures forall i :: 0 <= i < |raws| ==> results[i] == ParsePosition(raws[i])
  {
    seq(|raws|, i requires 0 <= i < |raws| => ParsePosition(raws[i]))
  }

  /** `z.array(PositionSchema)`: parses every element, reporting each
      element's issues under its index. */
  function ParsePositions(raws: seq<RawPosition>): (r: Result<seq<Position>>)
    ensures r.Success? ==> |r.value| == |raws|
    ensures r.Failure? ==> |r.errors| > 0
  {
    MergeArrayReported(ParseEach(raws));
    MergeArray(ParseEach(raws))
  }

  /** The array schema accepts exactly when every element passes
      `PositionSchema`. */
  lemma ParsePositionsAccepts(raws: seq<RawPosition>)
    ensures ParsePositions(raws).Success? <==> forall i :: 0 <= i < |raws| ==> AcceptsPosition(raws[i])
  {
    MergeArrayAccepts(ParseEach(raws));
  }

  /** On acceptance, the array schema yields each element's own parse. */
  lemma ParsePositionsElementwise(raws: seq<RawPosition>)
    requires ParsePositions(raws).Success?
    ensures forall i :: 0 <= i < |raws| ==> ParsePosition(raws[i]) == Success(ParsePositions(raws).value[i])
  {
    MergeArrayElementwise(ParseEach(raws));
  }

  /** Each issue of element `i` is reported by the array schema under
      index `i`. */
  lemma ParsePositionsReportsIssue(raws: seq<RawPosition>, i: nat, e: FieldError)
    requires i < |raws| && e in ParsePosition(raws[i]).Errors()
    ensures FieldError([Index(i)] + e.path, e.code) in ParsePositions(raws).Errors()
  {
    MergeArrayReportsIssue(ParseEach(raws), i, e);
  }

  /** Every issue of the array schema is an issue of one element, reported
      under that element's index. */
  lemma ParsePositionsIssueOrigin(raws: seq<RawPosition>, e: FieldError)
    requires e in ParsePositions(raws).Errors()
    ensures |e.path| > 0 && e.path[0].Index? && e.path[0].i < |raws|
    ensures FieldError(e.path[1..], e.code) in ParsePosition(raws[e.path[0].i]).Errors()
  {
    MergeArrayIssueOrigin(ParseEach(raws), e);
  }

  /** What the array schema yields are valid positions, entered exactly as
      the form values it was given. */
  lemma ParsePositionsRoundTrip(raws: seq<RawPosition>)
    requires ParsePositions(raws).Success?
    ensures PositionsToRaw(ParsePositions(raws).value) == raws
    ensures forall i :: 0 <= i < |raws| ==> ValidPosition(ParsePositions(raws).value[i])
  {
    var ps := ParsePositions(raws).value;
    ParsePositionsElementwise(raws);
    forall i | 0 <= i < |raws|
      ensures PositionToRaw(ps[i]) == raws[i] && ValidPosition(ps[i])
    {
      assert ParsePosition(raws[i]) == Success(ps[i]);
    }
  }

  /** A failed check of position `i`, reported under `positions` and `i`. */
  predicate PositionsViolation(raws: seq<RawPosition>, e: FieldError) {
    && |e.path| >= 2 && e.path[0] == Key("positions")
    && e.path[1].Index? && e.path[1].i < |raws|
    && PositionViolation(raws[e.path[1].i], FieldError(e.path[2..], e.code))
  }

  /** A check of `CalcForm.Schema` that the form values fail, with its
      issue: an unknown pair, a fractional or non-positive closing price, or
      a failed check of one of the positions. */
  predicate RequestViolation(raw: RawRequest, e: FieldError) {
    || (e == FieldError([Key("pair")], InvalidEnumValue) && ParsePair(raw.pair).None?)
    || (e == FieldError([Key("close")], ExpectedInteger) && !IsInteger(raw.close))
    || (e == FieldError([Key("close")], TooSmall) && raw.close <= 0.0)
    || PositionsViolation(raw.positions, e)
  }

  /** Every issue nested under `positions` is a failed check of one of
      the positions. */
  lemma NestedIssueOrigin(raws: seq<RawPosition>, e: FieldError)
    requires e in Nest(Key("positions"), ParsePositions(raws).Errors())
    ensures PositionsViolation(raws, e)
  {
    var errs := ParsePositions(raws).Errors();
    NestOrigin(Key("positions"), errs, e);
    var inner := FieldError(e.path[1..], e.code);
    ParsePositionsIssueOrigin(raws, inner);
    assert inner.path[1..] == e.path[2..];
  }

  /** Every failed check of a position is reported under `positions`. */
  lemma NestedIssueReported(raws: seq<RawPosition>, e: FieldError)
    requires PositionsViolation(raws, e)
    ensures e in Nest(Key("positions"), ParsePositions(raws).Errors())
  {
    var i := e.path[1].i;
    var sub := FieldError(e.path[2..], e.code);
    var f := FieldError([Index(i)] + sub.path, e.code);
    assert f in ParsePositions(raws).Errors() by {
      assert sub in ParsePosition(raws[i]).Errors();
      ParsePositionsReportsIssue(raws, i, sub);
    }
    SplitPath(e.path);
    NestReports(Key("positions"), ParsePositions(raws).Errors(), f);
  }

  /** The issues of `CalcForm.Schema`, field by field in declaration order:
      the pair's, the closing price's and those of the positions, each
      position's under `positions` and its index. */
  function RequestIssues(raw: RawRequest): (errs: seq<FieldError>)
    ensures errs == [] ==> ParsePositions(raw.positions).Success?
  {
    At("pair", if ParsePair(raw.pair).None? then [InvalidEnumValue] else [])
    + At("close", IntPositiveIssues(raw.close))
    + Nest(Key("positions"), ParsePositions(raw.positions).Errors())
  }

  /** The issues are exactly the failed checks. */
  lemma RequestIssuesExact(raw: RawRequest, e: FieldError)
    ensures e in RequestIssues(raw) <==> RequestViolation(raw, e)
  {
    var pairErrors := At("pair", if ParsePair(raw.pair).None? then [InvalidEnumValue] else []);
    var closeErrors := At("close", IntPositiveIssues(raw.close));
    var nested := Nest(Key("positions"), ParsePositions(raw.positions).Errors());
    assert e in nested <==> PositionsViolation(raw.positions, e) by {
      if e in nested {
        NestedIssueOrigin(raw.positions, e);
      }
      if PositionsViolation(raw.positions, e) {
        NestedIssueReported(raw.positions, e);
      }
    }
    assert e in RequestIssues(raw) <==> e in pairErrors || e in closeErrors || e in nested;
  }

  /** `CalcForm.Schema`: parses the whole form, or reports each failed check
      with the path of its field. */
  function ParseRequest(raw: RawRequest): (r: Result<CalcRequest>)
    ensures r.Failure? ==> |r.errors| > 0
    ensures FieldError([Key("pair")], InvalidEnumValue) in r.Errors() <==> ParsePair(raw.pair).None?
    ensures FieldError([Key("close")], ExpectedInteger) in r.Errors() <==> !IsInteger(raw.close)
    ensures FieldError([Key("close")], TooSmall) in r.Errors() <==> raw.close <= 0.0
  {
    var errors := RequestIssues(raw);
    RequestIssuesExact(raw, FieldError([Key("pair")], InvalidEnumValue));
    RequestIssuesExact(raw, FieldError([Key("close")], ExpectedInteger));
    RequestIssuesExact(raw, FieldError([Key("close")], TooSmall));
    if errors == [] then
      Success(CalcRequest(ParsePair(raw.pair).value, raw.close.Floor, ParsePositions(raw.positions).value))
    else Failure(errors)
  }

  /** The request schema reports exactly the failed checks, each under the
      path of its field. */
  lemma ParseRequestIssues(raw: RawRequest, e: FieldError)
    ensures e in ParseRequest(raw).Errors() <==> RequestViolation(raw, e)
  {
    RequestIssuesExact(raw, e);
  }

  /** The request schema accepts exactly the form values `AcceptsRequest`
      describes, and what it yields is a valid request entered exactly as
      those form values. */
  lemma ParseRequestAccepts(raw: RawRequest)
    ensures ParseRequest(raw).Success? <==> AcceptsRequest(raw)
    ensures ParseRequest(raw).Success? ==>
      ValidRequest(ParseRequest(raw).value) && RequestToRaw(ParseRequest(raw).value) == raw
  {
    ParsePositionsAccepts(raw.positions);
    if ParseRequest(raw).Success? {
      ParsePositionsRoundTrip(raw.positions);
    }
  }

  /** Parsing inverts entering: a request's form values parse back to that
      very request exactly when it is valid. */
  lemma RequestRoundTrip(req: CalcRequest)
    ensures ParseRequest(RequestToRaw(req)).Success? <==> ValidRequest(req)
    ensures ValidRequest(req) ==> ParseRequest(RequestToRaw(req)) == Success(req)
  {
    var raw := RequestToRaw(req);
    ParseRequestAccepts(raw);
    ValidRequestAccepted(req);
    if ValidRequest(req) {
      var parsed := ParseRequest(raw).value;
      assert RequestToRaw(parsed) == raw;
      PairStrings(req.pair, req.pair);
      PairStrings(parsed.pair, parsed.pair);
      PositionsToRawInjective(parsed.positions, req.positions);
    }
  }

  /** Distinct position lists are entered as distinct form values. */
  lemma PositionsToRawInjective(ps: seq<Position>, qs: seq<Position>)
    requires PositionsToRaw(ps) == PositionsToRaw(qs)
    ensures ps == qs
  {
    forall i | 0 <= i < |ps|
      ensures ps[i] == qs[i]
    {
      assert PositionToRaw(ps[i]) == PositionToRaw(qs[i]);
      assert ParseDirection(DirectionString(ps[i].direction)) == Some(ps[i].direction);
      assert ParseDirection(DirectionString(qs[i].direction)) == Some(qs[i].direction);
    }
  }

  /** The form's initial values: pair AUDCADc, close 0 and no positions. */
  const DefaultValues: RawRequest := RawRequest(PairString(AUDCADc), 0.0, [])

  /** The initial values do not pass the schema: the one issue is that a
      closing price of 0 is not positive. */
  lemma DefaultValuesRejected()
    ensures ParseRequest(DefaultValues) == Failure([FieldError([Key("close")], TooSmall)])
  {
    assert ParsePositions([]) == Success([]);
    assert IsInteger(0.0);
  }

  /** Sample verdicts of `PositionSchema` on lot and open. */
  lemma PositionSchemaSamples()
    ensures !AcceptsPosition(RawPosition("buy", 0.0, 90400.0))
    ensures !AcceptsPosition(RawPosition("buy", -1.0, 90400.0))
    ensures AcceptsPosition(RawPosition("buy", 2.5, 90400.0))
    ensures !AcceptsPosition(RawPosition("sell", 1.0, 0.0))
    ensures !AcceptsPosition(RawPosition("sell", 1.0, 1.5))
    ensures !AcceptsPosition(RawPosition("hold", 1.0, 90400.0))
  {
    assert IsInteger(90400.0);
    assert !IsInteger(1.5) by { assert (1.5).Floor == 1; }
  }

  /** An empty list of positions passes the request schema. */
  lemma EmptyPositionsAccepted(pair: Pair, close: nat)
    requires close > 0
    ensures ParseRequest(RawRequest(PairString(pair), close as real, [])) == Success(CalcRequest(pair, close, []))
  {
    RequestRoundTrip(CalcRequest(pair, close, []));
  }
}
