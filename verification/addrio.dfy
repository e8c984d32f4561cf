/**
 * Per-address views of the ledger: the received and sent dictionaries of `get_addr_io`,
 * the effect of one transaction on one address (`get_tx_delta`) and on the whole wallet
 * (`get_wallet_delta`).
 */
module AddrIo {
  import opened Wrappers
  import opened TxModel
  import opened Ledger
  import opened ODict

  /** One entry of an address's history: a transaction and the height the server reported. */
  datatype HistItem = HistItem(txHash: Hash, height: int)

  /** A received coin as `get_addr_io` reports it: (height, value, is_coinbase). */
  datatype Received = Received(height: int, value: int, isCoinbase: bool)

  /** The pair returned by `get_addr_io`: received coins by "h:n", and spent "h:n" by spend height. */
  datatype AddrIo = AddrIo(received: ODict<Outpoint, Received>, sent: ODict<Outpoint, int>)

  /** `self.txo.get(h, {}).get(a, [])` */
  function TxoList(txo: map<Hash, AddrLists<TxoEntry>>, h: Hash, a: Addr): seq<TxoEntry> {
    if h in txo && a in txo[h] then txo[h][a] else []
  }

  /** `self.txi.get(h, {}).get(a, [])` */
  function TxiList(txi: map<Hash, AddrLists<TxiEntry>>, h: Hash, a: Addr): seq<TxiEntry> {
    if h in txi && a in txi[h] then txi[h][a] else []
  }

  // ---------------------------------------------------------------------------
  // get_addr_io
  // ---------------------------------------------------------------------------

  /** `k` is output `e.n` of a history transaction, received by `a` as entry `e`. */
  ghost predicate ReceivedBy(txo: map<Hash, AddrLists<TxoEntry>>, hist: seq<HistItem>, a: Addr, k: Outpoint) {
    exists j, e :: 0 <= j < |hist| && e in TxoList(txo, hist[j].txHash, a) && k == Outpoint(hist[j].txHash, e.n)
  }

  /** ... and `rc` is what get_addr_io reports for it from one such history entry. */
  ghost predicate ReceivedAs(txo: map<Hash, AddrLists<TxoEntry>>, hist: seq<HistItem>, a: Addr, k: Outpoint, rc: Received) {
    exists j, e :: 0 <= j < |hist| && e in TxoList(txo, hist[j].txHash, a) && k == Outpoint(hist[j].txHash, e.n)
                   && rc == Received(hist[j].height, e.value, e.isCoinbase)
  }

  /** `k` is spent by `a` in a history transaction. */
  ghost predicate SpentBy(txi: map<Hash, AddrLists<TxiEntry>>, hist: seq<HistItem>, a: Addr, k: Outpoint) {
    exists j, e :: 0 <= j < |hist| && e in TxiList(txi, hist[j].txHash, a) && k == e.prevout
  }

  /** ... and `height` is the height of one history transaction spending it. */
  ghost predicate SpentAt(txi: map<Hash, AddrLists<TxiEntry>>, hist: seq<HistItem>, a: Addr, k: Outpoint, height: int) {
    exists j, e :: 0 <= j < |hist| && e in TxiList(txi, hist[j].txHash, a) && k == e.prevout && height == hist[j].height
  }

  /** The inner loop over one received list: `received[h:n] = (height, v, is_cb)`. */
  function PutReceived(acc: ODict<Outpoint, Received>, h: Hash, height: int, es: seq<TxoEntry>)
    : (r: ODict<Outpoint, Received>)
    requires Valid(acc)
    ensures Valid(r)
    decreases |es|
  {
    if |es| == 0 then acc
    else PutReceived(Put(acc, Outpoint(h, es[0].n), Received(height, es[0].value, es[0].isCoinbase)), h, height, es[1..])
  }

  lemma {:induction false} PutReceivedMeaning(acc: ODict<Outpoint, Received>, h: Hash, height: int, es: seq<TxoEntry>)
    requires Valid(acc)
    ensures var r := PutReceived(acc, h, height, es);
            && (forall k :: k in r.vals <==> (k in acc.vals || exists e :: e in es && k == Outpoint(h, e.n)))
            && (forall k :: k in r.vals ==>
                  (k in acc.vals && r.vals[k] == acc.vals[k])
                  || exists e :: e in es && k == Outpoint(h, e.n) && r.vals[k] == Received(height, e.value, e.isCoinbase))
    decreases |es|
  {
    if |es| > 0 {
      var e := es[0];
      var acc1 := Put(acc, Outpoint(h, e.n), Received(height, e.value, e.isCoinbase));
      PutReceivedMeaning(acc1, h, height, es[1..]);
      var r := PutReceived(acc, h, height, es);
      assert r == PutReceived(acc1, h, height, es[1..]);
      forall k ensures k in r.vals <==> (k in acc.vals || exists x :: x in es && k == Outpoint(h, x.n)) {
        if exists x :: x in es && k == Outpoint(h, x.n) {
          var x :| x in es && k == Outpoint(h, x.n);
          if x != e {
            assert x in es[1..];
          }
        }
        if exists x :: x in es[1..] && k == Outpoint(h, x.n) {
          var x :| x in es[1..] && k == Outpoint(h, x.n);
          assert x in es;
        }
      }
      forall k | k in r.vals
        ensures (k in acc.vals && r.vals[k] == acc.vals[k])
                || exists x :: x in es && k == Outpoint(h, x.n) && r.vals[k] == Received(height, x.value, x.isCoinbase)
      {
        if k in acc1.vals && r.vals[k] == acc1.vals[k] {
          if k == Outpoint(h, e.n) {
            assert e in es;
          }
        } else {
          var x :| x in es[1..] && k == Outpoint(h, x.n) && r.vals[k] == Received(height, x.value, x.isCoinbase);
          assert x in es;
        }
      }
    }
  }

  function ReceivedFold(txo: map<Hash, AddrLists<TxoEntry>>, a: Addr, hist: seq<HistItem>, acc: ODict<Outpoint, Received>)
    : (r: ODict<Outpoint, Received>)
    requires Valid(acc)
    ensures Valid(r)
    decreases |hist|
  {
    if |hist| == 0 then acc
    else ReceivedFold(txo, a, hist[1..], PutReceived(acc, hist[0].txHash, hist[0].height, TxoList(txo, hist[0].txHash, a)))
  }

  lemma {:induction false} ReceivedFoldMeaning(txo: map<Hash, AddrLists<TxoEntry>>, a: Addr, hist: seq<HistItem>,
                                               acc: ODict<Outpoint, Received>)
    requires Valid(acc)
    ensures var r := ReceivedFold(txo, a, hist, acc);
            && (forall k :: k in r.vals <==> (k in acc.vals || ReceivedBy(txo, hist, a, k)))
            && (forall k :: k in r.vals ==> (k in acc.vals && r.vals[k] == acc.vals[k]) || ReceivedAs(txo, hist, a, k, r.vals[k]))
    decreases |hist|
  {
    if |hist| > 0 {
      var it := hist[0];
      var es := TxoList(txo, it.txHash, a);
      var acc1 := PutReceived(acc, it.txHash, it.height, es);
      PutReceivedMeaning(acc, it.txHash, it.height, es);
      ReceivedFoldMeaning(txo, a, hist[1..], acc1);
      var r := ReceivedFold(txo, a, hist[1..], acc1);
      forall k ensures ReceivedBy(txo, hist, a, k) <==>
                       ReceivedBy(txo, hist[1..], a, k) || exists e :: e in es && k == Outpoint(it.txHash, e.n) {
        ReceivedByCons(txo, hist, a, k);
      }
      forall k | k in r.vals && ReceivedAs(txo, hist[1..], a, k, r.vals[k]) ensures ReceivedAs(txo, hist, a, k, r.vals[k]) {
        ReceivedAsTail(txo, hist, a, k, r.vals[k]);
      }
      forall k | k in acc1.vals && k !in acc.vals ensures ReceivedAs(txo, hist, a, k, acc1.vals[k]) {
        var e :| e in es && k == Outpoint(it.txHash, e.n) && acc1.vals[k] == Received(it.height, e.value, e.isCoinbase);
        ReceivedAsHead(txo, hist, a, e);
      }
    }
  }

  /** An output is received over a history iff it is received at its head or over its tail. */
  lemma ReceivedByCons(txo: map<Hash, AddrLists<TxoEntry>>, hist: seq<HistItem>, a: Addr, k: Outpoint)
    requires |hist| > 0
    ensures ReceivedBy(txo, hist, a, k) <==>
            ReceivedBy(txo, hist[1..], a, k) || exists e :: e in TxoList(txo, hist[0].txHash, a) && k == Outpoint(hist[0].txHash, e.n)
  {
    if ReceivedBy(txo, hist[1..], a, k) {
      var j, e :| 0 <= j < |hist[1..]| && e in TxoList(txo, hist[1..][j].txHash, a) && k == Outpoint(hist[1..][j].txHash, e.n);
      assert hist[1..][j] == hist[j + 1];
    }
    if ReceivedBy(txo, hist, a, k) {
      var j, e :| 0 <= j < |hist| && e in TxoList(txo, hist[j].txHash, a) && k == Outpoint(hist[j].txHash, e.n);
      if j > 0 {
        assert hist[1..][j - 1] == hist[j];
      }
    }
  }

  lemma ReceivedAsTail(txo: map<Hash, AddrLists<TxoEntry>>, hist: seq<HistItem>, a: Addr, k: Outpoint, rc: Received)
    requires |hist| > 0 && ReceivedAs(txo, hist[1..], a, k, rc)
    ensures ReceivedAs(txo, hist, a, k, rc)
  {
    var j, e :| 0 <= j < |hist[1..]| && e in TxoList(txo, hist[1..][j].txHash, a) && k == Outpoint(hist[1..][j].txHash, e.n)
                && rc == Received(hist[1..][j].height, e.value, e.isCoinbase);
    assert hist[1..][j] == hist[j + 1];
  }

  lemma ReceivedAsHead(txo: map<Hash, AddrLists<TxoEntry>>, hist: seq<HistItem>, a: Addr, e: TxoEntry)
    requires |hist| > 0 && e in TxoList(txo, hist[0].txHash, a)
    ensures ReceivedAs(txo, hist, a, Outpoint(hist[0].txHash, e.n), Received(hist[0].height, e.value, e.isCoinbase))
  {
    assert 0 <= 0 < |hist|;
  }

  /** The inner loop over one spent list: `sent[ser] = height`. */
  function PutSent(acc: ODict<Outpoint, int>, height: int, es: seq<TxiEntry>): (r: ODict<Outpoint, int>)
    requires Valid(acc)
    ensures Valid(r)
    decreases |es|
  {
    if |es| == 0 then acc
    else PutSent(Put(acc, es[0].prevout, height), height, es[1..])
  }

  lemma {:induction false} PutSentMeaning(acc: ODict<Outpoint, int>, height: int, es: seq<TxiEntry>)
    requires Valid(acc)
    ensures var r := PutSent(acc, height, es);
            && (forall k :: k in r.vals <==> (k in acc.vals || exists e :: e in es && k == e.prevout))
            && (forall k :: k in r.vals ==>
                  (k in acc.vals && r.vals[k] == acc.vals[k]) || ((exists e :: e in es && k == e.prevout) && r.vals[k] == height))
    decreases |es|
  {
    if |es| > 0 {
      var e := es[0];
      var acc1 := Put(acc, e.prevout, height);
      PutSentMeaning(acc1, height, es[1..]);
      var r := PutSent(acc, height, es);
      assert r == PutSent(acc1, height, es[1..]);
      assert (exists x :: x in es && x.prevout == e.prevout) by { assert e in es; }
      forall k ensures k in r.vals <==> (k in acc.vals || exists x :: x in es && k == x.prevout) {
        if exists x :: x in es && k == x.prevout {
          var x :| x in es && k == x.prevout;
          if x != e {
            assert x in es[1..];
          }
        }
        if exists x :: x in es[1..] && k == x.prevout {
          var x :| x in es[1..] && k == x.prevout;
          assert x in es;
        }
      }
    }
  }

  function SentFold(txi: map<Hash, AddrLists<TxiEntry>>, a: Addr, hist: seq<HistItem>, acc: ODict<Outpoint, int>)
    : (r: ODict<Outpoint, int>)
    requires Valid(acc)
    ensures Valid(r)
    decreases |hist|
  {
    if |hist| == 0 then acc
    else SentFold(txi, a, hist[1..], PutSent(acc, hist[0].height, TxiList(txi, hist[0].txHash, a)))
  }

  lemma {:induction false} SentFoldMeaning(txi: map<Hash, AddrLists<TxiEntry>>, a: Addr, hist: seq<HistItem>,
                                           acc: ODict<Outpoint, int>)
    requires Valid(acc)
    ensures var r := SentFold(txi, a, hist, acc);
            && (forall k :: k in r.vals <==> (k in acc.vals || SpentBy(txi, hist, a, k)))
            && (forall k :: k in r.vals ==> (k in acc.vals && r.vals[k] == acc.vals[k]) || SpentAt(txi, hist, a, k, r.vals[k]))
    decreases |hist|
  {
    if |hist| > 0 {
      var it := hist[0];
      var es := TxiList(txi, it.txHash, a);
      var acc1 := PutSent(acc, it.height, es);
      PutSentMeaning(acc, it.height, es);
      SentFoldMeaning(txi, a, hist[1..], acc1);
      var r := SentFold(txi, a, hist[1..], acc1);
      forall k ensures SpentBy(txi, hist, a, k) <==> SpentBy(txi, hist[1..], a, k) || exists e :: e in es && k == e.prevout {
        SpentByCons(txi, hist, a, k);
      }
      forall k | k in r.vals && SpentAt(txi, hist[1..], a, k, r.vals[k]) ensures SpentAt(txi, hist, a, k, r.vals[k]) {
        SpentAtTail(txi, hist, a, k, r.vals[k]);
      }
      forall k | k in acc1.vals && k !in acc.vals ensures SpentAt(txi, hist, a, k, acc1.vals[k]) {
        var e :| e in es && k == e.prevout;
        SpentAtHead(txi, hist, a, e);
      }
    }
  }

  /** An output is spent over a history iff it is spent at its head or over its tail. */
  lemma SpentByCons(txi: map<Hash, AddrLists<TxiEntry>>, hist: seq<HistItem>, a: Addr, k: Outpoint)
    requires |hist| > 0
    ensures SpentBy(txi, hist, a, k) <==>
            SpentBy(txi, hist[1..], a, k) || exists e :: e in TxiList(txi, hist[0].txHash, a) && k == e.prevout
  {
    if SpentBy(txi, hist[1..], a, k) {
      var j, e :| 0 <= j < |hist[1..]| && e in TxiList(txi, hist[1..][j].txHash, a) && k == e.prevout;
      assert hist[1..][j] == hist[j + 1];
    }
    if SpentBy(txi, hist, a, k) {
      var j, e :| 0 <= j < |hist| && e in TxiList(txi, hist[j].txHash, a) && k == e.prevout;
      if j > 0 {
        assert hist[1..][j - 1] == hist[j];
      }
    }
  }

  lemma SpentAtTail(txi: map<Hash, AddrLists<TxiEntry>>, hist: seq<HistItem>, a: Addr, k: Outpoint, height: int)
    requires |hist| > 0 && SpentAt(txi, hist[1..], a, k, height)
    ensures SpentAt(txi, hist, a, k, height)
  {
    var j, e :| 0 <= j < |hist[1..]| && e in TxiList(txi, hist[1..][j].txHash, a) && k == e.prevout
                && height == hist[1..][j].height;
    assert hist[1..][j] == hist[j + 1];
  }

  lemma SpentAtHead(txi: map<Hash, AddrLists<TxiEntry>>, hist: seq<HistItem>, a: Addr, e: TxiEntry)
    requires |hist| > 0 && e in TxiList(txi, hist[0].txHash, a)
    ensures SpentAt(txi, hist, a, e.prevout, hist[0].height)
  {
    assert 0 <= 0 < |hist|;
  }

  /**
   * get_addr_io: the received and sent dictionaries of address `a` over its history `hist`,
   * in the order the history lists them.
   */
  function GetAddrIo(txi: map<Hash, AddrLists<TxiEntry>>, txo: map<Hash, AddrLists<TxoEntry>>, hist: seq<HistItem>, a: Addr)
    : (r: AddrIo)
    ensures Valid(r.received) && Valid(r.sent)
  {
    AddrIo(ReceivedFold(txo, a, hist, Empty()), SentFold(txi, a, hist, Empty()))
  }

  /**
   * What get_addr_io reports: every output of a history transaction received by `a`, keyed
   * "h:n" with (height, value, is_coinbase) from one history entry listing it, and every
   * outpoint spent by `a` in a history transaction, keyed by itself with that spend's height.
   */
  lemma GetAddrIoMeaning(txi: map<Hash, AddrLists<TxiEntry>>, txo: map<Hash, AddrLists<TxoEntry>>, hist: seq<HistItem>, a: Addr)
    ensures var r := GetAddrIo(txi, txo, hist, a);
            && (forall k :: k in r.received.vals <==> ReceivedBy(txo, hist, a, k))
            && (forall k :: k in r.received.vals ==> ReceivedAs(txo, hist, a, k, r.received.vals[k]))
            && (forall k :: k in r.sent.vals <==> SpentBy(txi, hist, a, k))
            && (forall k :: k in r.sent.vals ==> SpentAt(txi, hist, a, k, r.sent.vals[k]))
  {
    ReceivedFoldMeaning(txo, a, hist, Empty());
    SentFoldMeaning(txi, a, hist, Empty());
  }

  // ---------------------------------------------------------------------------
  // get_tx_delta
  // ---------------------------------------------------------------------------

  /** Total value of a received list. */
  function ReceivedSum(es: seq<TxoEntry>): int {
    if |es| == 0 then 0 else ReceivedSum(es[..|es| - 1]) + es[|es| - 1].value
  }

  /** Total value of a spent list. */
  function SpentSum(es: seq<TxiEntry>): int {
    if |es| == 0 then 0 else SpentSum(es[..|es| - 1]) + es[|es| - 1].value
  }

  /** Total value of the outputs of `outs` that pay address `a`. */
  function PaidTo(outs: seq<TxOut>, a: Addr): int {
    if |outs| == 0 then 0
    else PaidTo(outs[..|outs| - 1], a) + (if outs[|outs| - 1].dest == PayTo(a) then outs[|outs| - 1].value else 0)
  }

  /**
   * get_tx_delta: `None` while `h` is listed as a spender with parked placeholders, otherwise
   * what `a` received in `h` minus what `a` spent in `h`.
   */
  method GetTxDelta(l: Ledger, h: Hash, a: Addr) returns (r: Option<int>)
    ensures r.None? <==> h in l.prunedValues
    ensures r.Some? ==> r.value == ReceivedSum(TxoList(l.txo, h, a)) - SpentSum(TxiList(l.txi, h, a))
  {
    if h in l.prunedValues {
      return None;
    }
    var delta := 0;
    var sent := TxiList(l.txi, h, a);
    for i := 0 to |sent|
      invariant delta == -SpentSum(sent[..i])
    {
      assert sent[..i + 1][..i] == sent[..i];
      delta := delta - sent[i].value;
    }
    assert sent[..|sent|] == sent;
    var recv := TxoList(l.txo, h, a);
    for i := 0 to |recv|
      invariant delta == ReceivedSum(recv[..i]) - SpentSum(sent)
    {
      assert recv[..i + 1][..i] == recv[..i];
      delta := delta + recv[i].value;
    }
    assert recv[..|recv|] == recv;
    return Some(delta);
  }

  lemma {:induction false} TxoOfSum(mine: set<Addr>, outs: seq<TxOut>, isCb: bool, a: Addr)
    requires a in mine
    ensures var d := TxoOf(mine, outs, isCb);
            ReceivedSum(if a in d then d[a] else []) == PaidTo(outs, a)
    decreases |outs|
  {
    if |outs| > 0 {
      var init := outs[..|outs| - 1];
      TxoOfSum(mine, init, isCb, a);
      var d0 := TxoOf(mine, init, isCb);
      assert TxoOf(mine, outs, isCb) == TxoStep(mine, outs, isCb, d0);
      TxoStepSum(mine, outs, isCb, d0, a);
    }
  }

  /** Filing the last output adds its value to the received sum of the address it pays. */
  lemma TxoStepSum(mine: set<Addr>, outs: seq<TxOut>, isCb: bool, d0: AddrLists<TxoEntry>, a: Addr)
    requires |outs| > 0 && a in mine
    ensures var d := TxoStep(mine, outs, isCb, d0);
            var o := outs[|outs| - 1];
            ReceivedSum(if a in d then d[a] else [])
              == ReceivedSum(if a in d0 then d0[a] else []) + (if o.dest == PayTo(a) then o.value else 0)
  {
    var o := outs[|outs| - 1];
    var l0 := if a in d0 then d0[a] else [];
    if IsMineDest(mine, o.dest) && o.dest.addr == a {
      assert (l0 + [TxoEntry(|outs| - 1, o.value, isCb)])[..|l0|] == l0;
    }
  }

  /**
   * The received half of get_tx_delta, once `h` has been added: for an owned address it is
   * exactly the value `h` pays to that address.
   */
  lemma ReceivedAfterAdd(l: Ledger, mine: set<Addr>, h: Hash, tx: Transaction, a: Addr)
    requires |tx.inputs| > 0 && a in mine
    ensures ReceivedSum(TxoList(AddTransaction(l, mine, h, tx).txo, h, a)) == PaidTo(tx.outputs, a)
  {
    AddTransactionEffects(l, mine, h, tx);
    TxoOfSum(mine, tx.outputs, tx.inputs[0].kind == Coinbase, a);
  }

  // ---------------------------------------------------------------------------
  // get_wallet_delta
  // ---------------------------------------------------------------------------

  /** The result of get_wallet_delta: (is_relevant, is_mine, v, fee). */
  datatype WalletDelta = WalletDelta(isRelevant: bool, isMine: bool, v: int, fee: Option<int>)

  /** The value of an owned input, looked up in `txo`; `None` when the funding coin is unknown. */
  function InputValue(l: Ledger, i: TxIn): Option<int>
    requires i.address.Some?
  {
    FindValue(l.txo, i.prevHash, i.address.value, i.prevN)
  }

  /** Sum of the known values of the owned inputs. */
  function OwnedInSum(l: Ledger, mine: set<Addr>, ins: seq<TxIn>): int {
    if |ins| == 0 then 0
    else
      var i := ins[|ins| - 1];
      OwnedInSum(l, mine, ins[..|ins| - 1])
      + (if IsMineOpt(mine, i.address) && InputValue(l, i).Some? then InputValue(l, i).value else 0)
  }

  function OutSum(outs: seq<TxOut>): int {
    if |outs| == 0 then 0 else OutSum(outs[..|outs| - 1]) + outs[|outs| - 1].value
  }

  function OwnedOutSum(mine: set<Addr>, outs: seq<TxOut>): int {
    if |outs| == 0 then 0
    else OwnedOutSum(mine, outs[..|outs| - 1]) + (if IsMineDest(mine, outs[|outs| - 1].dest) then outs[|outs| - 1].value else 0)
  }

  /**
   * get_wallet_delta: whether `tx` concerns the wallet, whether it spends wallet coins, its net
   * effect on the wallet and, only when every input is an owned coin of known value, its fee.
   */
  method GetWalletDelta(l: Ledger, mine: set<Addr>, tx: Transaction) returns (r: WalletDelta)
    ensures r.isMine <==> exists k :: 0 <= k < |tx.inputs| && IsMineOpt(mine, tx.inputs[k].address)
    ensures r.isRelevant <==>
              r.isMine || exists k :: 0 <= k < |tx.outputs| && IsMineDest(mine, tx.outputs[k].dest)
    ensures var pruned := exists k :: 0 <= k < |tx.inputs| && IsMineOpt(mine, tx.inputs[k].address)
                                      && InputValue(l, tx.inputs[k]).None?;
            var partial := exists k :: 0 <= k < |tx.inputs| && !IsMineOpt(mine, tx.inputs[k].address);
            && (r.fee.Some? <==> r.isMine && !pruned && !partial)
            && (r.fee.Some? ==> r.fee.value == OwnedInSum(l, mine, tx.inputs) - OutSum(tx.outputs))
            && (!pruned ==> r.v == OwnedOutSum(mine, tx.outputs) - OwnedInSum(l, mine, tx.inputs))
            && (pruned ==> r.v == OwnedOutSum(mine, tx.outputs) - OutSum(tx.outputs))
  {
    var isMine, isPruned, isPartial, vIn := ScanInputs(l, mine, tx.inputs);
    var outMine, vOut, vOutMine := ScanOutputs(mine, tx.outputs);
    var isRelevant := isMine || outMine;
    var v: int;
    var fee: Option<int>;
    if isPruned {
      fee := None;
      if isMine {
        v := vOutMine - vOut;
      } else {
        v := vOutMine;
      }
    } else {
      v := vOutMine - vIn;
      if isPartial {
        fee := None;
      } else {
        fee := Some(vIn - vOut);
      }
    }
    if !isMine {
      fee := None;
    }
    return WalletDelta(isRelevant, isMine, v, fee);
  }

  /** The loop of get_wallet_delta over the inputs. */
  method ScanInputs(l: Ledger, mine: set<Addr>, ins: seq<TxIn>) returns (isMine: bool, isPruned: bool, isPartial: bool, vIn: int)
    ensures isMine <==> exists j :: 0 <= j < |ins| && IsMineOpt(mine, ins[j].address)
    ensures isPruned <==> exists j :: 0 <= j < |ins| && IsMineOpt(mine, ins[j].address) && InputValue(l, ins[j]).None?
    ensures isPartial <==> exists j :: 0 <= j < |ins| && !IsMineOpt(mine, ins[j].address)
    ensures vIn == OwnedInSum(l, mine, ins)
  {
    isMine, isPruned, isPartial, vIn := false, false, false, 0;
    for k := 0 to |ins|
      invariant isMine <==> exists j :: 0 <= j < k && IsMineOpt(mine, ins[j].address)
      invariant isPruned <==> exists j :: 0 <= j < k && IsMineOpt(mine, ins[j].address) && InputValue(l, ins[j]).None?
      invariant isPartial <==> exists j :: 0 <= j < k && !IsMineOpt(mine, ins[j].address)
      invariant vIn == OwnedInSum(l, mine, ins[..k])
    {
      OwnedInSumSnoc(l, mine, ins, k);
      var i := ins[k];
      PrefixStep(l, mine, ins, k);
      if IsMineOpt(mine, i.address) {
        isMine := true;
        var value := InputValue(l, i);
        if value.None? {
          isPruned := true;
        } else {
          vIn := vIn + value.value;
        }
      } else {
        isPartial := true;
      }
    }
    assert ins[..|ins|] == ins;
  }

  lemma OwnedInSumSnoc(l: Ledger, mine: set<Addr>, ins: seq<TxIn>, k: nat)
    requires k < |ins|
    ensures OwnedInSum(l, mine, ins[..k + 1]) == OwnedInSum(l, mine, ins[..k])
              + (if IsMineOpt(mine, ins[k].address) && InputValue(l, ins[k]).Some? then InputValue(l, ins[k]).value else 0)
  {
    assert ins[..k + 1][..k] == ins[..k];
  }

  /** Extending the scanned prefix by input `k` adds exactly that input's witnesses. */
  lemma PrefixStep(l: Ledger, mine: set<Addr>, ins: seq<TxIn>, k: nat)
    requires k < |ins|
    ensures (exists j :: 0 <= j < k + 1 && IsMineOpt(mine, ins[j].address))
        <==> (exists j :: 0 <= j < k && IsMineOpt(mine, ins[j].address)) || IsMineOpt(mine, ins[k].address)
    ensures (exists j :: 0 <= j < k + 1 && IsMineOpt(mine, ins[j].address) && InputValue(l, ins[j]).None?)
        <==> (exists j :: 0 <= j < k && IsMineOpt(mine, ins[j].address) && InputValue(l, ins[j]).None?)
             || (IsMineOpt(mine, ins[k].address) && InputValue(l, ins[k]).None?)
    ensures (exists j :: 0 <= j < k + 1 && !IsMineOpt(mine, ins[j].address))
        <==> (exists j :: 0 <= j < k && !IsMineOpt(mine, ins[j].address)) || !IsMineOpt(mine, ins[k].address)
  {
  }

  /** The loop of get_wallet_delta over the outputs. */
  method ScanOutputs(mine: set<Addr>, outs: seq<TxOut>) returns (anyMine: bool, vOut: int, vOutMine: int)
    ensures anyMine <==> exists j :: 0 <= j < |outs| && IsMineDest(mine, outs[j].dest)
    ensures vOut == OutSum(outs)
    ensures vOutMine == OwnedOutSum(mine, outs)
  {
    anyMine, vOut, vOutMine := false, 0, 0;
    for k := 0 to |outs|
      invariant anyMine <==> exists j :: 0 <= j < k && IsMineDest(mine, outs[j].dest)
      invariant vOut == OutSum(outs[..k])
      invariant vOutMine == OwnedOutSum(mine, outs[..k])
    {
      assert outs[..k + 1][..k] == outs[..k];
      vOut := vOut + outs[k].value;
      if IsMineDest(mine, outs[k].dest) {
        vOutMine := vOutMine + outs[k].value;
        anyMine := true;
      }
    }
    assert outs[..|outs|] == outs;
  }
}
