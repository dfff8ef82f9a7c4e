/** The shared database: one block table, one backup table, and a set of tables for each business. */
module Database {
  import opened Node
  import opened Records
  import Balances
  import Blocks
  import Classify

  // The tables of one business.
  datatype Ledger = Ledger(balances: seq<Balances.Row>, deposits: seq<Deposit>, flows: seq<Flow>,
                           withdraws: seq<Request>, internals: seq<Request>)

  type Ledgers = map<Classify.Business, Ledger>

  class Database {
    const blocks: Blocks.BlocksTable
    var reorgBlocks: seq<Header>
    var ledgers: Ledgers

    constructor (ledgers: Ledgers)
      ensures fresh(blocks) && blocks.rows == [] && reorgBlocks == [] && this.ledgers == ledgers
    {
      blocks := new Blocks.BlocksTable();
      reorgBlocks := [];
      this.ledgers := ledgers;
    }
  }
}
