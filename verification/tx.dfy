/**
 * The parsed token (SLP) message carried in a transaction's first output.
 * The parser lives outside the wallet; the wallet only sees one of these results.
 */
module SlpMessage {
  import opened Wrappers

  /**
   * The body of a parsed message: one of the four message types the classifier knows, with the
   * fields it reads, or any other type name the parser might report.
   */
  datatype Body =
    | Genesis(initialQty: int, batonVout: Option<nat>)
    | Mint(tokenId: string, additionalQty: int, batonVout: Option<nat>)
    | Send(tokenId: string, amounts: seq<int>)
    | Commit
    | OtherType(name: string)

  /** Outcome of parsing: a known-but-unsupported token type, an unparseable script, or a message. */
  datatype SlpParse =
    | Unsupported(unsupportedType: int)
    | ParseError
    | Msg(tokenType: int, body: Body)
}

/** Transactions, addresses and output references as the wallet sees them. */
module TxModel {
  import opened Wrappers
  import opened SlpMessage

  type Hash = string
  type Addr = string

  /** An output reference, written "hash:n" by the wallet. */
  datatype Outpoint = Outpoint(hash: Hash, n: nat)

  datatype InputKind = Coinbase | Regular

  /** An input: its kind, the address it spends from when it could be parsed, and its prevout. */
  datatype TxIn = TxIn(kind: InputKind, address: Option<Addr>, prevHash: Hash, prevN: nat)

  /** An output pays either an address (TYPE_ADDRESS) or some other script/key type. */
  datatype Dest = PayTo(addr: Addr) | OtherDest

  datatype TxOut = TxOut(dest: Dest, value: int)

  /** A transaction together with the (externally computed) parse of its token message. */
  datatype Transaction = Transaction(inputs: seq<TxIn>, outputs: seq<TxOut>, slp: SlpParse)

  /** `is_mine` for an output destination: an address-type output paying an owned address. */
  predicate IsMineDest(mine: set<Addr>, d: Dest) {
    d.PayTo? && d.addr in mine
  }

  /** `is_mine` for an optional input address: an unparsed address is never mine. */
  predicate IsMineOpt(mine: set<Addr>, a: Option<Addr>) {
    a.Some? && a.value in mine
  }
}
