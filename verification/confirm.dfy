/**
 * Confirmation bookkeeping: which transactions have a verified (SPV-checked) position and
 * which only carry the height the server reported, and the status shown for each.
 */
module Confirm {
  import opened TxModel

  /** What the verifier recorded for a transaction: (height, timestamp, position in block). */
  datatype VerifiedInfo = VerifiedInfo(height: int, timestamp: int, pos: int)

  datatype Confirmations = Confirmations(verified: map<Hash, VerifiedInfo>, unverified: map<Hash, int>)

  const NoConfirmations := Confirmations(map[], map[])

  /** A transaction is never both verified and awaiting verification. */
  predicate Disjoint(c: Confirmations) {
    forall h :: h in c.verified ==> h !in c.unverified
  }

  /**
   * add_unverified_tx: a height-0 report demotes a verified transaction; the reported height
   * is then remembered unless the transaction (still) has a verified position.
   */
  function AddUnverifiedTx(c: Confirmations, h: Hash, height: int): (r: Confirmations)
    ensures height == 0 ==> h !in r.verified && h in r.unverified && r.unverified[h] == 0
    ensures h !in c.verified ==> h in r.unverified && r.unverified[h] == height
    ensures h in c.verified && height != 0 ==> r == c
    ensures forall t :: t != h ==> (t in r.verified <==> t in c.verified) && (t in r.unverified <==> t in c.unverified)
    ensures forall t :: t != h && t in r.verified ==> r.verified[t] == c.verified[t]
    ensures forall t :: t != h && t in r.unverified ==> r.unverified[t] == c.unverified[t]
    ensures Disjoint(c) ==> Disjoint(r)
  {
    var c1 := if height == 0 && h in c.verified then c.(verified := c.verified - {h}) else c;
    if h !in c1.verified then c1.(unverified := c1.unverified[h := height]) else c1
  }

  /** add_verified_tx: the transaction moves from the unverified map to the verified one. */
  function AddVerifiedTx(c: Confirmations, h: Hash, info: VerifiedInfo): (r: Confirmations)
    ensures h !in r.unverified && h in r.verified && r.verified[h] == info
    ensures forall t :: t != h ==> (t in r.verified <==> t in c.verified) && (t in r.unverified <==> t in c.unverified)
    ensures forall t :: t != h && t in r.verified ==> r.verified[t] == c.verified[t]
    ensures forall t :: t != h && t in r.unverified ==> r.unverified[t] == c.unverified[t]
    ensures Disjoint(c) ==> Disjoint(r)
  {
    Confirmations(c.verified[h := info], c.unverified - {h})
  }

  /** (height, confirmations, timestamp) as get_tx_height reports them. */
  datatype TxHeight = TxHeight(height: int, conf: int, timestamp: int)

  /**
   * get_tx_height: a verified transaction has `local - height + 1` confirmations (never fewer
   * than zero); an unverified one has its reported height and none; an unknown one is (0, 0, 0).
   */
  function GetTxHeight(c: Confirmations, h: Hash, localHeight: int): (r: TxHeight)
    ensures r.conf >= 0
    ensures r.conf > 0 ==> h in c.verified && r.height <= localHeight
    ensures h in c.verified ==> r.height == c.verified[h].height && r.timestamp == c.verified[h].timestamp
                                && (r.conf == 0 <==> r.height > localHeight)
    ensures h !in c.verified && h in c.unverified ==> r == TxHeight(c.unverified[h], 0, 0)
    ensures h !in c.verified && h !in c.unverified ==> r == TxHeight(0, 0, 0)
  {
    if h in c.verified then
      var info := c.verified[h];
      var conf := localHeight - info.height + 1;
      TxHeight(info.height, if conf > 0 then conf else 0, info.timestamp)
    else if h in c.unverified then TxHeight(c.unverified[h], 0, 0)
    else TxHeight(0, 0, 0)
  }

  /** The sort key base the history uses for unconfirmed and unknown transactions (1e9). */
  const Unconfirmed: int := 1_000_000_000

  /** (height, position) as get_txpos reports them. */
  datatype TxPos = TxPos(height: int, pos: int)

  /**
   * get_txpos: a position usable as a sort key even for unverified transactions. Confirmed
   * heights sort first by height. A mempool transaction (height 0) sorts at 1e9, after every
   * real block height; one with unconfirmed parents (height -1) sorts at 1e9 + 1, tied with an
   * unknown transaction.
   */
  function GetTxPos(c: Confirmations, h: Hash): (r: TxPos)
    ensures h in c.verified ==> r == TxPos(c.verified[h].height, c.verified[h].pos)
    ensures h !in c.verified && h in c.unverified && c.unverified[h] > 0 ==> r == TxPos(c.unverified[h], 0)
    ensures h !in c.verified && h in c.unverified && c.unverified[h] <= 0 ==>
              r == TxPos(Unconfirmed - c.unverified[h], 0) && r.height >= Unconfirmed
    ensures h !in c.verified && h !in c.unverified ==> r == TxPos(Unconfirmed + 1, 0)
  {
    if h in c.verified then TxPos(c.verified[h].height, c.verified[h].pos)
    else if h in c.unverified then
      var height := c.unverified[h];
      if height > 0 then TxPos(height, 0) else TxPos(Unconfirmed - height, 0)
    else TxPos(Unconfirmed + 1, 0)
  }

  /**
   * The status code of get_tx_status: 0 unconfirmed parent, 1 low fee, 2 unconfirmed,
   * 3 unknown or unverified-but-mined, 4..9 for 1..6+ confirmations.
   */
  function GetTxStatus(txKnown: bool, height: int, conf: int, lowFee: bool): (r: int)
    ensures conf != 0 ==> r == 3 + (if conf < 6 then conf else 6)
    ensures conf == 0 ==> 0 <= r <= 3
    ensures conf == 0 && !txKnown ==> r == 3
    ensures conf == 0 && txKnown ==> (r == 0 <==> height < 0) && (r == 1 <==> height == 0 && lowFee)
                                     && (r == 2 <==> height == 0 && !lowFee) && (r == 3 <==> height > 0)
  {
    if conf == 0 then
      if !txKnown then 3
      else if height < 0 then 0
      else if height == 0 && lowFee then 1
      else if height == 0 then 2
      else 3
    else 3 + (if conf < 6 then conf else 6)
  }

  /** Once verified at or below the local height, a transaction shows a confirmed status (4..9). */
  lemma VerifiedShowsConfirmed(c: Confirmations, h: Hash, info: VerifiedInfo, localHeight: int, txKnown: bool, lowFee: bool)
    requires info.height <= localHeight
    ensures var th := GetTxHeight(AddVerifiedTx(c, h, info), h, localHeight);
            4 <= GetTxStatus(txKnown, th.height, th.conf, lowFee) <= 9
  {
  }

  /** A height-0 report takes a transaction back to the mempool whatever was known before. */
  lemma ReorgToMempool(c: Confirmations, h: Hash, localHeight: int)
    ensures GetTxHeight(AddUnverifiedTx(c, h, 0), h, localHeight) == TxHeight(0, 0, 0)
    ensures GetTxPos(AddUnverifiedTx(c, h, 0), h) == TxPos(Unconfirmed, 0)
  {
  }

  /** Reporting the same height twice changes nothing the second time. */
  lemma AddUnverifiedIdempotent(c: Confirmations, h: Hash, height: int)
    ensures AddUnverifiedTx(AddUnverifiedTx(c, h, height), h, height) == AddUnverifiedTx(c, h, height)
  {
  }

  /** Every block height below 1e9 sorts before every unconfirmed or unknown transaction. */
  lemma ConfirmedSortFirst(c: Confirmations, h1: Hash, h2: Hash)
    requires h1 !in c.verified && h1 in c.unverified && 0 < c.unverified[h1] < Unconfirmed
    requires h2 !in c.verified && (h2 in c.unverified ==> c.unverified[h2] <= 0)
    ensures GetTxPos(c, h1).height < GetTxPos(c, h2).height
  {
  }
}
