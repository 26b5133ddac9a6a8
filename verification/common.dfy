/**
 * The vocabulary shared by both bank dialects: the string enumeration
 * `Direction`, the two summary records, raw CSV rows and JavaScript cells
 * that hold either a number or a string.
 */
module Common {

  const IN: string := "IN"
  const OUT: string := "OUT"

  /** A member of the string enumeration `Direction`: its value is the string itself. */
  type Direction = d: string | d == IN || d == OUT witness "OUT"

  /** Spending grouped by category. */
  datatype CategorySummary = CategorySummary(category: string, totalAmount: real, count: int, averageAmount: real)

  /** Spending grouped by counterparty. */
  datatype TargetSummary = TargetSummary(targetName: string, totalAmount: real, count: int, averageAmount: real)

  /** One CSV line after tokenising with a header row: column name to field text. */
  type Row = map<string, string>

  /** `row[key] ?? ''`: a column the row does not have reads as the empty string. */
  function Field(row: Row, key: string): string
  {
    if key in row then row[key] else ""
  }

  /** A JavaScript value that is either a number or a string. */
  datatype Cell = Num(number: real) | Text(text: string)
}
