/**
 * Handover decision of the UMTS visualizer (app.py, line 51).
 *
 * The two strengths are computed on lines 48-49 from uniform random draws
 * divided by the distance to cell A and by (5 - distance).  Those lines are
 * floating-point arithmetic and are not part of this model; the strengths
 * are inputs here.  Note that line 49 divides by zero when the distance is
 * 5.0, which the distance slider (line 12) allows.
 */
module Handover {

  /** The two candidate cells. */
  datatype Cell = CellA | CellB

  /** The label the dashboard shows for a cell. */
  function Name(c: Cell): (s: string)
    ensures s == "Cell A" || s == "Cell B"
  {
    match c
    case CellA => "Cell A"
    case CellB => "Cell B"
  }

  /** The cell that was not chosen. */
  function Other(c: Cell): (o: Cell)
    ensures o != c
  {
    match c
    case CellA => CellB
    case CellB => CellA
  }

  /** The strength of cell c among the two measured strengths. */
  function Strength(c: Cell, cellAPower: real, cellBPower: real): real {
    match c
    case CellA => cellAPower
    case CellB => cellBPower
  }

  /**
   * The chosen cell: cell A only when it is strictly stronger than cell B,
   * so a tie goes to cell B.
   */
  function Decide(cellAPower: real, cellBPower: real): (winner: Cell)
    ensures Strength(winner, cellAPower, cellBPower) >= Strength(Other(winner), cellAPower, cellBPower)
    ensures cellAPower == cellBPower ==> winner == CellB
  {
    if cellAPower > cellBPower then CellA else CellB
  }

  /** The text `handover` holds on line 51. */
  function HandoverLabel(cellAPower: real, cellBPower: real): (text: string)
    ensures text == "Cell A" || text == "Cell B"
    ensures text == "Cell A" <==> cellAPower > cellBPower
  {
    Name(Decide(cellAPower, cellBPower))
  }

  /** The two names are distinct, so the label identifies the cell. */
  lemma NameInjective(c1: Cell, c2: Cell)
    ensures Name(c1) == Name(c2) <==> c1 == c2
  {
  }

  /** Cell A is chosen exactly when it is strictly stronger. */
  lemma DecideIff(cellAPower: real, cellBPower: real)
    ensures Decide(cellAPower, cellBPower) == CellA <==> cellAPower > cellBPower
    ensures Decide(cellAPower, cellBPower) == CellB <==> cellAPower <= cellBPower
  {
  }

  /**
   * Swapping two different strengths swaps the winner; swapping equal
   * strengths leaves cell B the winner (the rule is not symmetric on ties).
   */
  lemma DecideSwap(cellAPower: real, cellBPower: real)
    ensures cellAPower != cellBPower ==>
              Decide(cellBPower, cellAPower) == Other(Decide(cellAPower, cellBPower))
    ensures cellAPower == cellBPower ==>
              Decide(cellBPower, cellAPower) == Decide(cellAPower, cellBPower) == CellB
  {
  }

  /** Strengthening cell A or weakening cell B never takes a win away from cell A. */
  lemma DecideMonotone(a: real, b: real, a': real, b': real)
    requires Decide(a, b) == CellA && a <= a' && b' <= b
    ensures Decide(a', b') == CellA
  {
  }
}
