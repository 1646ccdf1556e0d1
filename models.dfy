/** The purchase ledger: the `Stock` table, one row per recorded purchase,
    kept in primary-key order (rows are only ever appended). */
module Models {
  import opened Values

  /** A row of the table. `created_at` is set by the database clock and is
      not modelled. */
  datatype Stock = Stock(companyCode: string, companyName: string, amount: Dec)

  /** The table itself. */
  class StockTable {
    var rows: seq<Stock>

    /** An empty table. */
    constructor ()
      ensures rows == []
    {
      rows := [];
    }

    /** `Stock.objects.create(...)`: a new row after all existing ones. */
    method Create(companyCode: string, companyName: string, amount: Dec)
      modifies this
      ensures rows == old(rows) + [Stock(companyCode, companyName, amount)]
    {
      rows := rows + [Stock(companyCode, companyName, amount)];
    }
  }
}
