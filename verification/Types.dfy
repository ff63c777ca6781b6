/** The entities of the undo module, shared by the ledger, the genesis state and the wire format. */
module Types {
  import opened Words

  /** An amount of one denomination. Stored amounts are never negative: the bank refuses such coins. */
  datatype Coin = Coin(denom: Str, amount: nat)

  /** The three dials, in seconds. */
  datatype Params = Params(minWindow: U64, defaultWindow: U64, maxWindow: U64) {
    predicate Valid() {
      0 < minWindow <= defaultWindow <= maxWindow
    }
  }

  const DEFAULT_PARAMS := Params(120, 600, 86400)

  const MAX_OPEN_PER_SENDER: int := 20

  /** A send whose coins are parked until executeAt (Unix seconds). */
  datatype Pending = Pending(id: U64, sender: Str, recipient: Str, amount: Coin, executeAt: I64)

  /** The public tally of an address. */
  datatype Record = Record(index: Str, sent: U64, cancelled: U64, finalOnly: bool)

  datatype GenesisState = GenesisState(params: Params, pendingList: seq<Pending>, pendingCount: U64, recordMap: seq<Record>)
}
