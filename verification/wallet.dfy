/**
 * The wallet as a whole: adding and removing a transaction across the ledger, the stored
 * transactions, the fees and the token bookkeeping, and the handler that installs a new
 * history for an address.
 */
module Wallet {
  import opened Wrappers
  import opened TxModel
  import Ledger
  import opened AddrIo
  import opened Slp
  import opened Confirm
  import Balance
  import opened SlpMessage

  /** The wallet state this model covers. `mine` is the set of addresses the wallet owns. */
  datatype WalletState = WalletState(
    ledger: Ledger.Ledger,
    slp: SlpState,
    conf: Confirmations,
    history: map<Addr, seq<HistItem>>,
    txAddrHist: map<Hash, set<Addr>>,
    transactions: map<Hash, Transaction>,
    txFees: map<Hash, int>,
    mine: set<Addr>,
    isSlp: bool)

  /** A validation job submitted for a transaction. */
  datatype Submitted = Submitted(txHash: Hash, job: Job)

  /** A state change, the jobs it submitted, and the exception that ended it, if any. */
  datatype Outcome = Outcome(w: WalletState, jobs: seq<Submitted>, error: Option<string>)

  /** The transaction's token message raises only when it is a message type the classifier does not know. */
  predicate RaisesInClassifier(tx: Transaction) {
    |tx.outputs| > 0 && tx.slp.Msg? && tx.slp.body.OtherType?
  }

  /**
   * add_transaction: a transaction without inputs is ignored; otherwise the ledger is updated,
   * the transaction stored, and its token message classified. The classifier's exception
   * escapes after the ledger and the store have changed.
   */
  ghost function AddTransaction(w: WalletState, h: Hash, tx: Transaction): (r: Outcome)
    ensures |tx.inputs| == 0 ==> r == Outcome(w, [], None)
    ensures r.error.Some? <==> |tx.inputs| > 0 && RaisesInClassifier(tx)
    ensures |tx.inputs| > 0 ==>
              r.w.transactions == w.transactions[h := tx] && r.w.ledger == Ledger.AddTransaction(w.ledger, w.mine, h, tx)
    ensures r.error.Some? ==> r.w.slp == w.slp
    ensures r.w.conf == w.conf && r.w.history == w.history && r.w.txAddrHist == w.txAddrHist
            && r.w.txFees == w.txFees && r.w.mine == w.mine && r.w.isSlp == w.isSlp
    ensures r.jobs == [] || (|r.jobs| == 1 && r.jobs[0].txHash == h && w.isSlp)
  {
    if |tx.inputs| == 0 then Outcome(w, [], None)
    else
      var w1 := w.(ledger := Ledger.AddTransaction(w.ledger, w.mine, h, tx), transactions := w.transactions[h := tx]);
      match HandleSlpTransaction(w1.slp, w1.mine, h, tx.outputs, tx.slp, w1.isSlp)
      case Failure(e) => Outcome(w1, [], Some(e))
      case Success(o) =>
        Outcome(w1.(slp := o.state), if o.job.Some? then [Submitted(h, o.job.value)] else [], None)
  }

  /**
   * remove_transaction: the ledger forgets `h`, its fee is dropped, its token info cleared and
   * its tags removed; the transaction itself stays stored.
   */
  ghost function RemoveTransaction(w: WalletState, h: Hash): (r: WalletState)
    ensures h !in r.ledger.txi && h !in r.ledger.txo && r.ledger.txo == w.ledger.txo - {h}
    ensures r.txFees == w.txFees - {h}
    ensures h in r.slp.tokinfo && r.slp.tokinfo[h] == Cleared
    ensures forall k :: k in r.slp.slpTxo <==> k in w.slp.slpTxo && k.txHash != h
    ensures r.ledger.cache.Keys <= w.ledger.cache.Keys
    ensures r.transactions == w.transactions && r.conf == w.conf && r.history == w.history
            && r.txAddrHist == w.txAddrHist && r.mine == w.mine && r.isSlp == w.isSlp
  {
    w.(ledger := Ledger.RemoveTransaction(w.ledger, h), txFees := w.txFees - {h}, slp := ClearTransaction(w.slp, h))
  }

  /** No tag of the token bookkeeping belongs to transaction `h`. */
  predicate NoTagsOf(s: SlpState, h: Hash) {
    forall k :: k in s.slpTxo ==> k.txHash != h
  }

  /** Clearing a transaction's tags after handling its token message restores the tags. */
  lemma ClearUndoesHandle(s: SlpState, mine: set<Addr>, h: Hash, outs: seq<TxOut>, p: SlpParse, isSlp: bool)
    requires NoTagsOf(s, h) && HandleSlpTransaction(s, mine, h, outs, p, isSlp).Success?
    ensures ClearTransaction(HandleSlpTransaction(s, mine, h, outs, p, isSlp).value.state, h).slpTxo == s.slpTxo
  {
    var m := HandleSlpTransaction(s, mine, h, outs, p, isSlp).value.state;
    var c := ClearTransaction(m, h);
    assert s.slpTxo.Keys <= m.slpTxo.Keys;
    forall k | k in s.slpTxo ensures k in c.slpTxo && c.slpTxo[k] == s.slpTxo[k] {
      assert k.txHash != h;
    }
  }

  /** Forgetting a transaction whose outputs were unknown before it was added restores `txo`. */
  lemma LedgerRemoveUndoesAdd(l: Ledger.Ledger, mine: set<Addr>, h: Hash, tx: Transaction)
    requires h !in l.txo
    ensures Ledger.RemoveTransaction(Ledger.AddTransaction(l, mine, h, tx), h).txo == l.txo
  {
    if |tx.inputs| > 0 {
      var l1 := Ledger.AddInputsPhase(l, mine, h, tx);
      var l2 := Ledger.StoreOutputs(l1, mine, h, tx);
      assert l1.txo == l.txo;
      Ledger.ResolveKeepsTxo(l2, mine, h, tx.outputs, 0);
      Ledger.StoreOutputsDropped(l1, mine, h, tx);
    }
  }

  /**
   * Removing a transaction the wallet did not know before adding it restores the received
   * coins and the token tags, and leaves its token info cleared.
   */
  lemma RemoveUndoesAdd(w: WalletState, h: Hash, tx: Transaction)
    requires h !in w.ledger.txo && NoTagsOf(w.slp, h)
    requires AddTransaction(w, h, tx).error.None?
    ensures var r := RemoveTransaction(AddTransaction(w, h, tx).w, h);
            && r.ledger.txo == w.ledger.txo
            && r.slp.slpTxo == w.slp.slpTxo
            && r.slp.tokinfo[h] == Cleared
            && r.txFees == w.txFees - {h}
  {
    var a := AddTransaction(w, h, tx);
    LedgerRemoveUndoesAdd(w.ledger, w.mine, h, tx);
    assert a.w.ledger == Ledger.AddTransaction(w.ledger, w.mine, h, tx);
    if |tx.inputs| > 0 {
      var o := HandleSlpTransaction(w.slp, w.mine, h, tx.outputs, tx.slp, w.isSlp);
      assert o.Success? && a.w.slp == o.value.state;
      ClearUndoesHandle(w.slp, w.mine, h, tx.outputs, tx.slp, w.isSlp);
    } else {
      assert a.w.slp == w.slp;
      assert ClearTransaction(w.slp, h).slpTxo == w.slp.slpTxo;
    }
  }

  // ---------------------------------------------------------------------------
  // receive_history_callback
  // ---------------------------------------------------------------------------

  /** The addresses whose history lists `t`; none when `t` has no entry. */
  function RefsOf(tah: map<Hash, set<Addr>>, t: Hash): set<Addr> {
    if t in tah then tah[t] else {}
  }

  /** `tx_addr_hist` holds no empty set. */
  predicate NoEmptySets(tah: map<Hash, set<Addr>>) {
    forall h :: h in tah ==> tah[h] != {}
  }

  /**
   * One entry of the old history that the new one no longer lists: `addr` stops referencing
   * the transaction, and a transaction no address references any more is removed.
   */
  ghost function Forget(w: WalletState, addr: Addr, h: Hash): (r: WalletState)
    ensures NoEmptySets(w.txAddrHist) ==> NoEmptySets(r.txAddrHist)
    ensures r.txAddrHist.Keys <= w.txAddrHist.Keys
    ensures forall t :: t in r.txAddrHist ==> r.txAddrHist[t] == (if t == h then w.txAddrHist[t] - {addr} else w.txAddrHist[t])
    ensures h in r.txAddrHist <==> h in w.txAddrHist && w.txAddrHist[h] - {addr} != {}
    ensures forall t :: t != h ==> (t in r.txAddrHist <==> t in w.txAddrHist)
    ensures h !in r.txAddrHist ==> h !in r.ledger.txo
    ensures r.ledger.txo.Keys <= w.ledger.txo.Keys
    ensures r.ledger.cache.Keys <= w.ledger.cache.Keys
    ensures r.transactions == w.transactions && r.conf == w.conf && r.history == w.history
            && r.mine == w.mine && r.isSlp == w.isSlp
    ensures r.txFees.Keys <= w.txFees.Keys && forall t :: t in r.txFees ==> r.txFees[t] == w.txFees[t]
  {
    var tah := w.txAddrHist;
    var tah1 := if h in tah && tah[h] != {} then tah[h := tah[h] - {addr}] else tah;
    if h in tah1 && tah1[h] != {} then w.(txAddrHist := tah1)
    else RemoveTransaction(w.(txAddrHist := tah1 - {h}), h)
  }

  /** The first loop of receive_history_callback over the old history. */
  ghost function ForgetOld(w: WalletState, addr: Addr, prev: seq<HistItem>, hist: seq<HistItem>): (r: WalletState)
    ensures NoEmptySets(w.txAddrHist) ==> NoEmptySets(r.txAddrHist)
    ensures r.txAddrHist.Keys <= w.txAddrHist.Keys
    ensures forall t :: t in r.txAddrHist ==> r.txAddrHist[t] <= w.txAddrHist[t]
    ensures forall t :: t in r.txAddrHist ==> r.txAddrHist[t] - {addr} == w.txAddrHist[t] - {addr}
    ensures forall i :: 0 <= i < |prev| && prev[i] !in hist ==>
              prev[i].txHash !in r.txAddrHist || addr !in r.txAddrHist[prev[i].txHash]
    ensures forall i :: 0 <= i < |prev| && prev[i] !in hist
                        && (prev[i].txHash !in w.txAddrHist || w.txAddrHist[prev[i].txHash] <= {addr}) ==>
              prev[i].txHash !in r.ledger.txo
    ensures r.ledger.txo.Keys <= w.ledger.txo.Keys
    ensures r.ledger.cache.Keys <= w.ledger.cache.Keys
    ensures r.transactions == w.transactions && r.conf == w.conf && r.history == w.history
            && r.mine == w.mine && r.isSlp == w.isSlp
    ensures r.txFees.Keys <= w.txFees.Keys && forall t :: t in r.txFees ==> r.txFees[t] == w.txFees[t]
    decreases |prev|
  {
    if |prev| == 0 then w
    else
      var w1 := if prev[0] in hist then w else Forget(w, addr, prev[0].txHash);
      var r := ForgetOld(w1, addr, prev[1..], hist);
      assert forall i :: 0 < i < |prev| ==> prev[1..][i - 1] == prev[i];
      r
  }

  /** The transactions `txi[h]` or `txo[h]` list an entry for `addr` (an empty list counts). */
  predicate Indexed(l: Ledger.Ledger, h: Hash, addr: Addr) {
    (h in l.txi && addr in l.txi[h]) || (h in l.txo && addr in l.txo[h])
  }

  /** The transaction hashes a history lists. */
  function TxHashes(hs: seq<HistItem>): (r: set<Hash>)
    ensures forall i :: 0 <= i < |hs| ==> hs[i].txHash in r
  {
    set i | 0 <= i < |hs| :: hs[i].txHash
  }

  /** Index the stored transaction `h` for an address nothing of `h` is indexed under yet. */
  ghost function IndexStored(w: WalletState, addr: Addr, h: Hash): (r: Outcome)
    ensures forall t :: t != h ==> (t in r.w.ledger.txo <==> t in w.ledger.txo)
    ensures r.w.ledger.cache.Keys <= w.ledger.cache.Keys
    ensures r.jobs == [] || (|r.jobs| == 1 && r.jobs[0].txHash == h)
    ensures r.error.Some? ==> h in w.transactions && RaisesInClassifier(w.transactions[h])
    ensures r.w.conf == w.conf && r.w.txAddrHist == w.txAddrHist
    ensures r.w.transactions == w.transactions && r.w.history == w.history && r.w.txFees == w.txFees
            && r.w.mine == w.mine && r.w.isSlp == w.isSlp
  {
    if h in w.transactions && !Indexed(w.ledger, h, addr) then
      var tx := w.transactions[h];
      var r := AddTransaction(w, h, tx);
      if |tx.inputs| == 0 then r
      else
        Ledger.AddTransactionEffects(w.ledger, w.mine, h, tx);
        r
    else Outcome(w, [], None)
  }

  /**
   * One entry of the new history: remember its height, record that `addr` references it, and
   * index the stored transaction when nothing is indexed for `addr` yet.
   */
  ghost function Remember(w: WalletState, addr: Addr, it: HistItem): (r: Outcome)
    ensures r.w.conf == AddUnverifiedTx(w.conf, it.txHash, it.height)
    ensures r.w.txAddrHist == w.txAddrHist[it.txHash := RefsOf(w.txAddrHist, it.txHash) + {addr}]
    ensures forall t :: t != it.txHash ==> (t in r.w.ledger.txo <==> t in w.ledger.txo)
    ensures r.w.ledger.cache.Keys <= w.ledger.cache.Keys
    ensures r.jobs == [] || (|r.jobs| == 1 && r.jobs[0].txHash == it.txHash)
    ensures r.w.transactions == w.transactions && r.w.history == w.history && r.w.txFees == w.txFees
            && r.w.mine == w.mine && r.w.isSlp == w.isSlp
  {
    var h := it.txHash;
    var w1 := w.(conf := AddUnverifiedTx(w.conf, h, it.height),
                 txAddrHist := w.txAddrHist[h := RefsOf(w.txAddrHist, h) + {addr}]);
    IndexStored(w1, addr, h)
  }

  /** The second loop of receive_history_callback over the new history; an exception ends it. */
  ghost function RememberAll(w: WalletState, addr: Addr, items: seq<HistItem>): (r: Outcome)
    ensures r.w.ledger.cache.Keys <= w.ledger.cache.Keys
    ensures r.w.transactions == w.transactions && r.w.history == w.history && r.w.txFees == w.txFees
            && r.w.mine == w.mine && r.w.isSlp == w.isSlp
    decreases |items|
  {
    if |items| == 0 then Outcome(w, [], None)
    else
      var o := Remember(w, addr, items[0]);
      if o.error.Some? then o
      else
        var rest := RememberAll(o.w, addr, items[1..]);
        Outcome(rest.w, o.jobs + rest.jobs, rest.error)
  }

  /** The hashes of a non-empty history: its first entry's and those of the rest. */
  lemma TxHashesCons(items: seq<HistItem>)
    requires |items| > 0
    ensures TxHashes(items) == {items[0].txHash} + TxHashes(items[1..])
  {
    assert forall i :: 0 < i < |items| ==> items[1..][i - 1] == items[i];
  }

  /**
   * From `m0` to `m`, `addr` is the only reference added, emptiness is never introduced, and
   * only the entries of `hs` change.
   */
  ghost predicate RefsGrow(m0: map<Hash, set<Addr>>, m: map<Hash, set<Addr>>, addr: Addr, hs: set<Hash>) {
    && (NoEmptySets(m0) ==> NoEmptySets(m))
    && (forall t :: t in m ==> RefsOf(m0, t) <= m[t] <= RefsOf(m0, t) + {addr})
    && (forall t :: t !in hs ==> RefsOf(m, t) == RefsOf(m0, t))
    && (forall t :: t !in hs ==> (t in m <==> t in m0))
  }

  /** RememberAll only adds `addr` to reference sets, and only to those of listed transactions. */
  lemma {:induction false} RememberAllRefs(w: WalletState, addr: Addr, items: seq<HistItem>)
    ensures RefsGrow(w.txAddrHist, RememberAll(w, addr, items).w.txAddrHist, addr, TxHashes(items))
    decreases |items|
  {
    if |items| == 0 {
      RefsGrowSame(w.txAddrHist, addr, TxHashes(items));
    } else {
      TxHashesCons(items);
      var o := Remember(w, addr, items[0]);
      var m1 := o.w.txAddrHist;
      if o.error.None? {
        RememberAllRefs(o.w, addr, items[1..]);
        var m2 := RememberAll(o.w, addr, items[1..]).w.txAddrHist;
        assert RememberAll(w, addr, items).w.txAddrHist == m2;
        RefsStep(w.txAddrHist, m1, m2, addr, items[0].txHash, TxHashes(items[1..]));
      } else {
        assert RememberAll(w, addr, items).w.txAddrHist == m1;
        RefsGrowSame(m1, addr, TxHashes(items[1..]));
        RefsStep(w.txAddrHist, m1, m1, addr, items[0].txHash, TxHashes(items[1..]));
      }
    }
  }

  /** With nothing changed, the reference facts hold trivially. */
  lemma RefsGrowSame(m: map<Hash, set<Addr>>, addr: Addr, hs: set<Hash>)
    ensures RefsGrow(m, m, addr, hs)
  {
  }

  /**
   * One remembered entry `h` followed by the rest: the reference-set facts of the rest, from
   * `m1` to `m2`, extend to those of the whole history from `m0`.
   */
  lemma RefsStep(m0: map<Hash, set<Addr>>, m1: map<Hash, set<Addr>>, m2: map<Hash, set<Addr>>, addr: Addr, h: Hash,
                 rest: set<Hash>)
    requires m1 == m0[h := RefsOf(m0, h) + {addr}]
    requires RefsGrow(m1, m2, addr, rest)
    ensures RefsGrow(m0, m2, addr, {h} + rest)
  {
    forall t | t in m2 ensures RefsOf(m0, t) <= m2[t] <= RefsOf(m0, t) + {addr} {
      assert RefsOf(m0, t) <= RefsOf(m1, t) <= RefsOf(m0, t) + {addr};
    }
  }

  /** Once RememberAll completes, every listed transaction carries a reference to `addr`. */
  lemma {:induction false} RememberAllRecords(w: WalletState, addr: Addr, items: seq<HistItem>)
    ensures var r := RememberAll(w, addr, items);
      && (forall t :: t in w.txAddrHist && addr in w.txAddrHist[t] ==> t in r.w.txAddrHist && addr in r.w.txAddrHist[t])
      && (r.error.None? ==> forall t :: t in TxHashes(items) ==> t in r.w.txAddrHist && addr in r.w.txAddrHist[t])
    decreases |items|
  {
    if |items| == 0 {
      assert RememberAll(w, addr, items) == Outcome(w, [], None);
    } else {
      TxHashesCons(items);
      var o := Remember(w, addr, items[0]);
      var m1 := o.w.txAddrHist;
      if o.error.None? {
        RememberAllRecords(o.w, addr, items[1..]);
        var r2 := RememberAll(o.w, addr, items[1..]);
        assert RememberAll(w, addr, items).w.txAddrHist == r2.w.txAddrHist;
        assert RememberAll(w, addr, items).error == r2.error;
        RecordsStep(w.txAddrHist, m1, r2.w.txAddrHist, addr, items[0].txHash, TxHashes(items[1..]), r2.error.None?);
      } else {
        assert RememberAll(w, addr, items) == o;
        RecordsStep(w.txAddrHist, m1, m1, addr, items[0].txHash, {}, false);
      }
    }
  }

  /**
   * One remembered entry `h` followed by the rest: references to `addr` survive, and when the
   * rest completes (`done`), `h` with the rest's hashes end up referencing it.
   */
  lemma RecordsStep(m0: map<Hash, set<Addr>>, m1: map<Hash, set<Addr>>, m2: map<Hash, set<Addr>>, addr: Addr, h: Hash,
                    rest: set<Hash>, done: bool)
    requires m1 == m0[h := RefsOf(m0, h) + {addr}]
    requires forall t :: t in m1 && addr in m1[t] ==> t in m2 && addr in m2[t]
    requires done ==> forall t :: t in rest ==> t in m2 && addr in m2[t]
    ensures forall t :: t in m0 && addr in m0[t] ==> t in m2 && addr in m2[t]
    ensures done ==> forall t :: t in {h} + rest ==> t in m2 && addr in m2[t]
  {
  }

  /** RememberAll keeps verified and unverified apart and leaves every listed transaction in one of them. */
  lemma {:induction false} RememberAllConf(w: WalletState, addr: Addr, items: seq<HistItem>)
    ensures var r := RememberAll(w, addr, items);
      && (Disjoint(w.conf) ==> Disjoint(r.w.conf))
      && (forall t :: t in w.conf.verified || t in w.conf.unverified ==> t in r.w.conf.verified || t in r.w.conf.unverified)
      && (r.error.None? ==> forall t :: t in TxHashes(items) ==> t in r.w.conf.verified || t in r.w.conf.unverified)
    decreases |items|
  {
    if |items| == 0 {
      assert RememberAll(w, addr, items) == Outcome(w, [], None);
    } else {
      TxHashesCons(items);
      var o := Remember(w, addr, items[0]);
      if o.error.None? {
        RememberAllConf(o.w, addr, items[1..]);
      } else {
        assert RememberAll(w, addr, items) == o;
      }
    }
  }

  /** RememberAll changes the indexing only of transactions the history lists. */
  lemma {:induction false} RememberAllTxo(w: WalletState, addr: Addr, items: seq<HistItem>)
    ensures var r := RememberAll(w, addr, items);
      forall t :: t !in TxHashes(items) ==> (t in r.w.ledger.txo <==> t in w.ledger.txo)
    decreases |items|
  {
    if |items| == 0 {
      assert RememberAll(w, addr, items) == Outcome(w, [], None);
    } else {
      TxHashesCons(items);
      var o := Remember(w, addr, items[0]);
      if o.error.None? {
        RememberAllTxo(o.w, addr, items[1..]);
        assert RememberAll(w, addr, items).w == RememberAll(o.w, addr, items[1..]).w;
      } else {
        assert RememberAll(w, addr, items) == o;
      }
    }
  }

  /** RememberAll submits validation jobs only for transactions the history lists. */
  lemma {:induction false} RememberAllJobs(w: WalletState, addr: Addr, items: seq<HistItem>)
    ensures forall s :: s in RememberAll(w, addr, items).jobs ==> s.txHash in TxHashes(items)
    decreases |items|
  {
    if |items| == 0 {
      assert RememberAll(w, addr, items) == Outcome(w, [], None);
    } else {
      TxHashesCons(items);
      var o := Remember(w, addr, items[0]);
      if o.error.None? {
        RememberAllJobs(o.w, addr, items[1..]);
        var rest := RememberAll(o.w, addr, items[1..]).jobs;
        assert RememberAll(w, addr, items).jobs == o.jobs + rest;
        JobsStep(o.jobs, rest, items[0].txHash, TxHashes(items[1..]));
      } else {
        assert RememberAll(w, addr, items) == o;
        JobsStep(o.jobs, [], items[0].txHash, TxHashes(items[1..]));
      }
    }
  }

  /** The jobs of one entry `h` followed by those of the rest name only `h` and the rest's hashes. */
  lemma JobsStep(first: seq<Submitted>, rest: seq<Submitted>, h: Hash, hs: set<Hash>)
    requires first == [] || (|first| == 1 && first[0].txHash == h)
    requires forall s :: s in rest ==> s.txHash in hs
    ensures forall s :: s in first + rest ==> s.txHash in {h} + hs
  {
  }

  /**
   * receive_history_callback: drop `addr` from the transactions its old history listed but
   * the new one does not (removing those no address references any more), invalidate the
   * balance cache of `addr`, install the new history, then for each new entry record its
   * height and reference and index its stored transaction if needed; the fees are stored last.
   */
  ghost function ReceiveHistoryCallback(w: WalletState, addr: Addr, hist: seq<HistItem>, fees: map<Hash, int>): (r: Outcome)
    ensures r.w.history == w.history[addr := hist]
    ensures addr !in r.w.ledger.cache
    ensures r.w.transactions == w.transactions && r.w.mine == w.mine && r.w.isSlp == w.isSlp
    ensures r.error.None? ==> forall t :: t in fees ==> t in r.w.txFees && r.w.txFees[t] == fees[t]
    ensures r.error.None? ==> forall t :: t in r.w.txFees ==> t in fees || (t in w.txFees && r.w.txFees[t] == w.txFees[t])
    ensures r.error.Some? ==> forall t :: t in r.w.txFees ==> t in w.txFees && r.w.txFees[t] == w.txFees[t]
  {
    var w2 := ForgetAndInstall(w, addr, hist);
    var o := RememberAll(w2, addr, hist);
    if o.error.Some? then o
    else Outcome(o.w.(txFees := o.w.txFees + fees), o.jobs, None)
  }

  /** The part of receive_history_callback before the second loop. */
  ghost function ForgetAndInstall(w: WalletState, addr: Addr, hist: seq<HistItem>): (r: WalletState)
    ensures r.history == w.history[addr := hist]
    ensures addr !in r.ledger.cache
    ensures r.transactions == w.transactions && r.mine == w.mine && r.isSlp == w.isSlp && r.conf == w.conf
    ensures forall t :: t in r.txFees ==> t in w.txFees && r.txFees[t] == w.txFees[t]
  {
    var w1 := ForgetOld(w, addr, Balance.HistOf(w.history, addr), hist);
    w1.(ledger := w1.ledger.(cache := w1.ledger.cache - {addr}), history := w1.history[addr := hist])
  }

  /** The old history's transactions that the new history no longer lists. */
  ghost function Dropped(w: WalletState, addr: Addr, hist: seq<HistItem>): set<Hash> {
    TxHashes(Balance.HistOf(w.history, addr)) - TxHashes(hist)
  }

  /** What ForgetAndInstall does to the references and the indexed transactions. */
  lemma ForgetAndInstallDrops(w: WalletState, addr: Addr, hist: seq<HistItem>)
    ensures var r := ForgetAndInstall(w, addr, hist);
      && (NoEmptySets(w.txAddrHist) ==> NoEmptySets(r.txAddrHist))
      && (forall t :: t in r.txAddrHist ==> r.txAddrHist[t] <= w.txAddrHist[t] && r.txAddrHist[t] - {addr} == w.txAddrHist[t] - {addr})
      && (forall t :: t in Dropped(w, addr, hist) ==> addr !in RefsOf(r.txAddrHist, t))
      && (forall t :: t in Dropped(w, addr, hist) && RefsOf(w.txAddrHist, t) <= {addr} ==> t !in r.ledger.txo)
  {
    var prev := Balance.HistOf(w.history, addr);
    var w1 := ForgetOld(w, addr, prev, hist);
    forall t | t in Dropped(w, addr, hist)
      ensures addr !in RefsOf(w1.txAddrHist, t)
      ensures RefsOf(w.txAddrHist, t) <= {addr} ==> t !in w1.ledger.txo
    {
      var i :| 0 <= i < |prev| && prev[i].txHash == t;
      assert prev[i] !in hist;
    }
  }

  /**
   * After receive_history_callback the references match the new history: every listed
   * transaction references `addr` (when no exception ended the second loop), no transaction
   * the new history dropped does, the references of other addresses are untouched, and a
   * dropped transaction that only `addr` referenced is no longer indexed.
   */
  lemma ReceiveHistoryRefs(w: WalletState, addr: Addr, hist: seq<HistItem>, fees: map<Hash, int>)
    ensures var r := ReceiveHistoryCallback(w, addr, hist, fees);
      && (NoEmptySets(w.txAddrHist) ==> NoEmptySets(r.w.txAddrHist))
      && (r.error.None? ==> forall t :: t in TxHashes(hist) ==> addr in RefsOf(r.w.txAddrHist, t))
      && (forall t :: t in Dropped(w, addr, hist) ==> addr !in RefsOf(r.w.txAddrHist, t))
      && (forall t :: t in r.w.txAddrHist ==> r.w.txAddrHist[t] - {addr} <= RefsOf(w.txAddrHist, t))
      && (forall t :: t in Dropped(w, addr, hist) && RefsOf(w.txAddrHist, t) <= {addr} ==> t !in r.w.ledger.txo)
  {
    var w2 := ForgetAndInstall(w, addr, hist);
    ForgetAndInstallDrops(w, addr, hist);
    RememberAllRefs(w2, addr, hist);
    RememberAllRecords(w2, addr, hist);
    RememberAllTxo(w2, addr, hist);
    var o := RememberAll(w2, addr, hist);
    assert ReceiveHistoryCallback(w, addr, hist, fees).w.txAddrHist == o.w.txAddrHist;
    assert ReceiveHistoryCallback(w, addr, hist, fees).w.ledger == o.w.ledger;
    forall t | t in o.w.txAddrHist ensures o.w.txAddrHist[t] - {addr} <= RefsOf(w.txAddrHist, t) {
      assert o.w.txAddrHist[t] <= RefsOf(w2.txAddrHist, t) + {addr};
    }
  }

  /**
   * receive_history_callback keeps verified and unverified apart, and when it completes every
   * transaction of the new history has a recorded height.
   */
  lemma ReceiveHistoryConf(w: WalletState, addr: Addr, hist: seq<HistItem>, fees: map<Hash, int>)
    ensures var r := ReceiveHistoryCallback(w, addr, hist, fees);
      && (Disjoint(w.conf) ==> Disjoint(r.w.conf))
      && (r.error.None? ==> forall t :: t in TxHashes(hist) ==> t in r.w.conf.verified || t in r.w.conf.unverified)
  {
    var w2 := ForgetAndInstall(w, addr, hist);
    RememberAllConf(w2, addr, hist);
    assert ReceiveHistoryCallback(w, addr, hist, fees).w.conf == RememberAll(w2, addr, hist).w.conf;
  }
}
