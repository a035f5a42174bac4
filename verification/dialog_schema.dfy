/** The duplicate schema module of the position dialog's directory: a second
    copy of the Direction enum and of the position schema. No component
    uses it; the position dialog validates with the calculator form's
    `PositionSchema`. */
module DialogSchema {
  import opened FormInput

  /** Trade directions: exactly buy and sell. */
  datatype Direction = Buy | Sell

  /** The enum string of a direction. */
  function DirectionString(d: Direction): string {
    match d
    case Buy => "buy"
    case Sell => "sell"
  }

  /** `nativeEnum(Direction)`: only the enum's strings are accepted. */
  function ParseDirection(s: string): (r: Option<Direction>)
    ensures r.Some? ==> DirectionString(r.value) == s
  {
    if s == "buy" then Some(Buy)
    else if s == "sell" then Some(Sell)
    else None
  }

  /** The enum has exactly two members, and exactly their two strings are
      accepted. */
  lemma DirectionMembers(d: Direction, s: string)
    ensures d == Buy || d == Sell
    ensures Buy != Sell && DirectionString(Buy) != DirectionString(Sell)
    ensures ParseDirection(DirectionString(d)) == Some(d)
    ensures ParseDirection(s).Some? <==> s == "buy" || s == "sell"
  {
  }

  /** A position as the duplicate schema yields it. */
  datatype Position = Position(direction: Direction, lot: real, open: int)

  /** `PositionFormSchema`: a known direction, a positive lot and a positive
      integral opening price, or each failed check. */
  function ParsePositionForm(raw: RawPosition): (r: Result<Position>)
    ensures r.Success? <==>
      ParseDirection(raw.direction).Some? && raw.lot > 0.0 && IsInteger(raw.open) && raw.open > 0.0
    ensures r.Success? ==>
      && DirectionString(r.value.direction) == raw.direction
      && r.value.lot == raw.lot
      && r.value.open as real == raw.open
    ensures r.Failure? ==> |r.errors| > 0
  {
    var direction := ParseDirection(raw.direction);
    var errors :=
      At("direction", if direction.None? then [InvalidEnumValue] else [])
      + At("lot", PositiveIssues(raw.lot))
      + At("open", IntPositiveIssues(raw.open));
    if errors == [] then Success(Position(direction.value, raw.lot, raw.open.Floor))
    else Failure(errors)
  }

  /** A fractional value is a valid lot but not a valid opening price. */
  lemma FractionalLotOnly()
    ensures ParsePositionForm(RawPosition("sell", 1.5, 90400.0)).Success?
    ensures ParsePositionForm(RawPosition("sell", 2.0, 1.5)) == Failure([FieldError([Key("open")], ExpectedInteger)])
  {
    assert IsInteger(90400.0);
    assert !IsInteger(1.5) by { assert (1.5).Floor == 1; }
  }
}
