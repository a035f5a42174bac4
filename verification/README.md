# plcalc valuation core in Dafny

plcalc is a client-side forex profit/loss calculator. The user picks a
currency pair, enters a hypothetical closing price and adds positions. Each
position has a direction (buy or sell), a lot size and an opening price.
Prices are whole numbers in the pair's smallest quoted unit. The calculator
adds up every position's profit or loss at the closing price into one total.

This project models that core:

- `valuation.dfy` (module `Valuation`) models `calculateTotalValue`. The
  per-pair spread lot is 0.73 × lot for AUDCADc and the full lot otherwise.
  The direction sign is −1 when the price moved against the position. A
  position is worth |open − close| × spread lot × sign. The total is a `map`
  followed by a left-to-right `reduce` from 0. The proofs cover the empty
  total, the sign rule, the closed form per direction, sign symmetry,
  linearity in lot, spread scaling, additivity and order independence.
- `calc_schema.dfy` (module `CalcSchema`) models the calculator form's data
  model. It has the `Direction` and `Pair` enums, the pair picker's items,
  `PositionSchema`, `CalcForm.Schema` and `CalcForm.DefaultValues`. Each
  schema is a parse function. It returns the typed value, or every failed
  check together with the path of its field. Validity predicates say what
  the schema accepts. Round-trip lemmas show that parsing is the inverse of
  entering a valid position or request as form values.
- `dialog_schema.dfy` (module `DialogSchema`) models
  `src/components/position-dialog/schema.ts`, an unused duplicate of
  `Direction` and of the position schema (`PositionFormSchema`). The
  position dialog component itself imports `Direction` and `PositionSchema`
  from the calculator form's schema and validates with
  `zodResolver(PositionSchema)`. `schema_agreement.dfy` proves that the
  duplicate and `PositionSchema` accept and reject the same values, report
  the same issues and yield the same position, so the duplicate is
  harmless; it says nothing new about the dialog's own gate.
- `form_input.dfy` (module `FormInput`) holds what both schemas share:
  form values after numeric coercion, the issues zod raises
  (`invalid_enum_value`; the `invalid_type` issue of `.int()`, expected
  "integer" and received "float"; and `too_small`), issue paths, the check
  primitives `.int()` and `.positive()`, and the array schema's merge of its
  elements' results.

Lot and money amounts are exact `real`s, and prices are `int`s. A schema
receives numbers that are already coerced, as `real`s, so it can reject a
fractional opening price such as 1.5. The schemas' `.int().positive()`
checks do not stop at the first failure, so −1.5 gets both the `.int()`
issue and `too_small`, in that order. Object fields are checked in declaration
order.

Dafny reserves the word `label`. The picker item's label field is therefore
called `labelText`.

## Model

| member | source | states |
|---|---|---|
| `FormInput.NestReports` | src/components/calculator-form/schema.ts:40 | every issue of a nested value is reported with the nesting step put in front of its path |
| `FormInput.NestOrigin` | src/components/calculator-form/schema.ts:40 | every nested issue starts with the nesting step and, without it, is an issue of the nested value |
| `FormInput.MergeArrayAccepts` | src/components/calculator-form/schema.ts:40 | the array merge succeeds iff every element passed |
| `FormInput.MergeArrayElementwise` | src/components/calculator-form/schema.ts:40 | on success the merge yields each element's own value, in order |
| `FormInput.MergeArrayReported` | src/components/calculator-form/schema.ts:40 | a failed merge reports at least one issue when every failed element does |
| `FormInput.MergeArrayReportsIssue` | src/components/calculator-form/schema.ts:40 | each issue of element i is reported by the merge under index i |
| `FormInput.MergeArrayIssueOrigin` | src/components/calculator-form/schema.ts:40 | every issue of the merge starts with an index i below the length and, without it, is an issue of element i |
| `CalcSchema.ParseDirection` | src/components/calculator-form/schema.ts:4-7 | the direction enum accepts a string only as the direction whose enum string it is |
| `CalcSchema.DirectionStrings` | src/components/calculator-form/schema.ts:4-7 | each direction's string parses back to that direction; exactly "buy" and "sell" are accepted |
| `CalcSchema.ParsePair` | src/components/calculator-form/schema.ts:12-15 | the pair enum accepts a string only as the pair whose enum string it is |
| `CalcSchema.PairStrings` | src/components/calculator-form/schema.ts:12-15 | each pair's string parses back to that pair; enum keys and the empty string are rejected |
| `CalcSchema.Entries` | src/components/calculator-form/schema.ts:20-23 | one picker item per enum member, in order, labelled by the member's key and valued by its string |
| `CalcSchema.PairItems` | src/components/calculator-form/schema.ts:20-23 | the picker's items are exactly AUDCADc/"audcadc" and then EURUSDc/"eurusdc" |
| `CalcSchema.PairItemsOnePerPair` | src/components/calculator-form/schema.ts:20-23 | the picker has two items, every pair appears exactly once in declaration order, each label is the key, and each value parses back to that pair |
| `CalcSchema.ValidPositionAccepted` | src/components/calculator-form/schema.ts:26-30 | a position is valid iff its form values pass the rule of `PositionSchema` |
| `CalcSchema.ParsePosition` | src/components/calculator-form/schema.ts:26-30 | with `.int()` and `.positive()` as `IntIssues` and `PositiveIssues`, and fields checked in shape order: accepts iff the direction is known, lot > 0, and open is an integer > 0; on success yields a valid position entered exactly as the input; otherwise reports one or more issues, exactly the failed checks |
| `CalcSchema.PositionRoundTrip` | src/components/calculator-form/schema.ts:26-30 | a position's form values parse back to that same position iff it is valid |
| `CalcSchema.PositionSchemaSamples` | src/components/calculator-form/schema.ts:27-29 | lot 0 and lot −1 are rejected; lot 2.5 is accepted; open 0, open 1.5 and an unknown direction are rejected |
| `CalcSchema.ValidRequestAccepted` | src/components/calculator-form/schema.ts:34-41 | a request is valid iff its form values pass the rule of `CalcForm.Schema` |
| `CalcSchema.ParsePositions` | src/components/calculator-form/schema.ts:40 | `z.array(PositionSchema)` as `MergeArray(ParseEach(raws))`, each element parsed by the position schema and the results merged: on success yields one position per element; otherwise reports at least one issue |
| `CalcSchema.ParsePositionsAccepts` | src/components/calculator-form/schema.ts:40 | the array schema accepts iff every element passes the position schema |
| `CalcSchema.ParsePositionsElementwise` | src/components/calculator-form/schema.ts:40 | on acceptance the array schema yields each element's own parse |
| `CalcSchema.ParsePositionsReportsIssue` | src/components/calculator-form/schema.ts:40 | each issue of element i is reported by the array schema with index i put in front of its path |
| `CalcSchema.ParsePositionsIssueOrigin` | src/components/calculator-form/schema.ts:40 | every issue of the array schema starts with an index i below the length and, without it, is an issue of element i |
| `CalcSchema.ParsePositionsRoundTrip` | src/components/calculator-form/schema.ts:40 | the parsed positions are valid and are entered exactly as the given form values |
| `CalcSchema.NestedIssueOrigin` | src/components/calculator-form/schema.ts:40 | every issue under `positions` is a failed check of the position its index names |
| `CalcSchema.NestedIssueReported` | src/components/calculator-form/schema.ts:40 | every failed check of position i is reported under `positions`, i and then its own field |
| `CalcSchema.RequestIssuesExact` | src/components/calculator-form/schema.ts:34-41 | the form's issues are exactly the failed checks: unknown pair, fractional close, close ≤ 0, and each position's failed checks under `positions` and its index |
| `CalcSchema.ParseRequest` | src/components/calculator-form/schema.ts:34-41 | with `.int()` and `.positive()` on close as `IntIssues` and `PositiveIssues`: a failure has at least one issue; the pair issue appears iff the pair is unknown; close gets the `.int()` issue iff it is fractional and `too_small` iff it is ≤ 0 |
| `CalcSchema.ParseRequestIssues` | src/components/calculator-form/schema.ts:34-41 | the request schema reports exactly the failed checks, each under the path of its field, the positions' under `positions` and their index |
| `CalcSchema.ParseRequestAccepts` | src/components/calculator-form/schema.ts:34-41 | the request schema accepts iff the pair is known, close is an integer > 0, and every position is accepted; the result is then a valid request entered exactly as the input |
| `CalcSchema.RequestRoundTrip` | src/components/calculator-form/schema.ts:34-41 | a request's form values parse back to that same request iff it is valid |
| `CalcSchema.EmptyPositionsAccepted` | src/components/calculator-form/schema.ts:40 | a request with no positions is accepted when its pair and close are valid |
| `CalcSchema.DefaultValuesRejected` | src/components/calculator-form/schema.ts:42-46 | the form's default values fail the schema, with the single issue `too_small` on close |
| `DialogSchema.ParseDirection` | src/components/position-dialog/schema.ts:3-6 | the duplicate direction enum accepts a string only as the direction whose enum string it is |
| `DialogSchema.DirectionMembers` | src/components/position-dialog/schema.ts:3-6 | the enum has exactly the two distinct members buy and sell, and exactly their strings are accepted |
| `DialogSchema.ParsePositionForm` | src/components/position-dialog/schema.ts:8-12 | accepts iff the direction is known, lot > 0, and open is an integer > 0; on success keeps the input's direction string, lot and open; otherwise reports issues |
| `DialogSchema.FractionalLotOnly` | src/components/position-dialog/schema.ts:10-11 | 1.5 is accepted as a lot; 1.5 as an open is rejected with the single `.int()` issue |
| `SchemaAgreement.ToCalcDirection` | src/components/position-dialog/schema.ts:3-6 | each duplicate direction maps to the calculator direction with the same enum string |
| `SchemaAgreement.SchemasAgree` | src/components/position-dialog/schema.ts:8-12 | the unused duplicate `PositionFormSchema` and `PositionSchema`, which the dialog validates with, accept the same values, report the same issues, and yield the same position |
| `Valuation.SpreadLot` | src/components/calculator-form/lib.ts:13-20 | the spread never enlarges a positive lot or makes it zero; the spread lot is zero iff the lot is |
| `Valuation.SpreadScaling` | src/components/calculator-form/lib.ts:13-20 | under AUDCADc a position is worth exactly 0.73 times its value under EURUSDc |
| `Valuation.DirectionValue` | src/components/calculator-form/lib.ts:22-31 | the sign is ±1; it is −1 iff the price moved against the direction, and 1 when the price did not move; the sign times the distance between open and close is the directional price gain |
| `Valuation.SignMarksLoss` | src/components/calculator-form/lib.ts:22-33 | for a valid position the sign is −1 iff the position is worth less than 0, and 1 iff it is worth 0 or more |
| `Valuation.SingleValue` | src/components/calculator-form/lib.ts:12-34 | closed form: a buy is worth (close − open) × spread lot and a sell (open − close) × spread lot |
| `Valuation.OppositeNegates` | src/components/calculator-form/lib.ts:22-33 | swapping buy and sell negates a position's value; a position whose price did not move is worth 0 |
| `Valuation.LotLinear` | src/components/calculator-form/lib.ts:13-33 | scaling the lot by k scales the position's value by k |
| `Valuation.Values` | src/components/calculator-form/lib.ts:36-37 | the map yields one value per position, in order, each equal to that position's value |
| `Valuation.Reduce` | src/components/calculator-form/lib.ts:38 | the reduce of no values is the initial 0, and of one value is that value |
| `Valuation.TotalValue` | src/components/calculator-form/lib.ts:7-39 | for a valid request the total is the sum over positions of directional price gain × spread lot; no positions total exactly 0, and one position totals that position's value |
| `Valuation.ReduceAppend` | src/components/calculator-form/lib.ts:38 | the left-to-right sum of a concatenation is the sum of the parts' sums |
| `Valuation.ValuesAppend` | src/components/calculator-form/lib.ts:37 | mapping a concatenation gives the concatenation of the mapped parts |
| `Valuation.SumAppend` | src/components/calculator-form/lib.ts:36-38 | the summed values of A ++ B are those of A plus those of B |
| `Valuation.TotalAdditive` | src/components/calculator-form/lib.ts:36-38 | a valid request's total is the sum of the totals of the two parts its positions split into (both valid) |
| `Valuation.SumPermutation` | src/components/calculator-form/lib.ts:36-38 | two position lists with the same multiset have the same summed value |
| `Valuation.TotalOrderIndependent` | src/components/calculator-form/lib.ts:36-38 | rearranging a valid request's positions keeps it valid and keeps its total |
| `Valuation.SumSpreadScaling` | src/components/calculator-form/lib.ts:13-38 | the same positions and close total 0.73 times as much under AUDCADc as under EURUSDc |
| `Valuation.SumClosedForm` | src/components/calculator-form/lib.ts:22-38 | the total is the sum, over positions, of directional price gain × spread lot |
| `Valuation.WorkedExamples` | src/components/calculator-form/lib.ts:7-39 | on EURUSDc a buy of 1 opened at 90400 is worth 400 at 90800, one opened at 90800 is worth −400 at 90400; a sell of 2 loses 800; a buy on AUDCADc gains 292; buy 1 plus sell 2 totals −400; no positions total 0 |

## Left out

- Text-to-number coercion by `z.coerce.number()`, which applies JavaScript's `Number()`, is not modelled. The schemas receive numbers that are already coerced. The only `invalid_type` issue modelled is the one `.int()` raises on a fractional number. Those raised on NaN, a missing field or an enum value that is neither a string nor a number are not modelled. Numeric enum inputs, which get `invalid_enum_value`, are outside the model too, because its enum fields are strings. An empty text field coerces to 0 and so shows up here as `too_small`.
- Issue messages, including the custom "Invalid pair." and "Invalid number." texts, are not modelled. Neither are the extra fields of a zod issue (minimum, inclusive, received value). An issue is reduced to its code and its path.
- IEEE-754 behaviour is not modelled. 0.73 is not exactly representable, and floating-point addition is not associative. The model computes with exact reals, so additivity and order independence hold exactly here. In plcalc's JavaScript, they hold only up to floating-point rounding.
- Display rounding with `toFixed(2)` is not modelled. That is string formatting in the React component.
- The React form is not part of this model. This covers react-hook-form and `zodResolver` wiring, the dialogs, and clearing the displayed total when a position is added or removed or the form is reset. It also covers the Calculate button being disabled while there are no positions. All of this is UI state and event handling.
- The spread factor follows the code: a `switch` with 0.73 for AUDCADc and the full lot as the default branch. It is not a separate lookup table.
