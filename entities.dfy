/**
 * The records the dashboard works on: transactions and goals (declared in
 * src/App.tsx) and bills (declared in src/components/BillsSection.tsx).
 */
module Entities {
  import opened Wrappers
  import opened Calendar

  /** The type tags the `transacciones` table holds. */
  const INGRESO: string := "INGRESO"
  const GASTO: string := "GASTO"
  const AHORRO: string := "AHORRO"

  /**
   * A money movement.  `kind` is the source's `type`: declared as one of
   * the three stored tags, but at run time any string the dialogs put there.
   */
  datatype Transaction = Transaction(
    id: string,
    kind: string,
    amount: real,
    category: string,
    description: string,
    date: Date)

  /** A transaction before the store gives it an id (`Omit<Transaction, 'id'>`). */
  datatype TxDraft = TxDraft(kind: string, amount: real, category: string, description: string, date: Date)

  /** A savings goal; `isUsed` is the stored `completada` flag. */
  datatype Goal = Goal(
    id: string,
    name: string,
    targetAmount: real,
    currentAmount: real,
    targetDate: Stamp,
    category: string,
    isUsed: bool,
    description: Option<string>)

  /** A bill paid in installments. */
  datatype Bill = Bill(
    id: string,
    name: string,
    totalAmount: real,
    installments: int,
    paidInstallments: int,
    installmentAmount: real,
    dueDate: string,
    category: string)
}
