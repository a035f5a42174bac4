/** The unused duplicate position schema and the calculator form's
    `PositionSchema`, which the position dialog validates with, are two
    copies of one rule: they accept and reject the same form values, with
    the same issues, and yield the same position. */
module SchemaAgreement {
  import opened FormInput
  import CalcSchema
  import DialogSchema

  /** The calculator form's direction with the same enum string. */
  function ToCalcDirection(d: DialogSchema.Direction): (c: CalcSchema.Direction)
    ensures CalcSchema.DirectionString(c) == DialogSchema.DirectionString(d)
  {
    match d
    case Buy => CalcSchema.Buy
    case Sell => CalcSchema.Sell
  }

  /** The duplicate schema's position as the calculator form holds it. */
  function ToCalcPosition(p: DialogSchema.Position): CalcSchema.Position {
    CalcSchema.Position(ToCalcDirection(p.direction), p.lot, p.open)
  }

  /** Both schemas accept exactly the same form values, report the same
      issues on the rest, and yield the same position. */
  lemma SchemasAgree(raw: RawPosition)
    ensures DialogSchema.ParsePositionForm(raw).Success? <==> CalcSchema.ParsePosition(raw).Success?
    ensures DialogSchema.ParsePositionForm(raw).Errors() == CalcSchema.ParsePosition(raw).Errors()
    ensures DialogSchema.ParsePositionForm(raw).Success? ==>
      CalcSchema.ParsePosition(raw).value == ToCalcPosition(DialogSchema.ParsePositionForm(raw).value)
  {
    var d := DialogSchema.ParseDirection(raw.direction);
    var c := CalcSchema.ParseDirection(raw.direction);
    assert d.None? <==> c.None?;
    assert d.Some? ==> c == Some(ToCalcDirection(d.value));
  }
}
