/**
 * The balance cache stays sound across add_transaction and remove_transaction: every entry
 * either of them keeps still equals the balance computed afresh, because the entries of the
 * addresses whose lists change are dropped.
 */
module Cache {
  import opened TxModel
  import opened Ledger
  import opened ODict
  import opened AddrIo
  import opened Balance

  /** Transaction `h` is listed in history `hist`. */
  ghost predicate InHistory(hist: seq<HistItem>, h: Hash) {
    exists j :: 0 <= j < |hist| && hist[j].txHash == h
  }

  /** Address `a` reads the same received and spent lists in two ledgers at every transaction of `hist`. */
  ghost predicate SameView(l1: Ledger, l2: Ledger, hist: seq<HistItem>, a: Addr) {
    forall j :: 0 <= j < |hist| ==>
      && TxoList(l1.txo, hist[j].txHash, a) == TxoList(l2.txo, hist[j].txHash, a)
      && TxiList(l1.txi, hist[j].txHash, a) == TxiList(l2.txi, hist[j].txHash, a)
  }

  lemma {:induction false} ReceivedFoldCongruent(l1: Ledger, l2: Ledger, a: Addr, hist: seq<HistItem>,
                                                 acc: ODict<Outpoint, Received>)
    requires Valid(acc)
    requires SameView(l1, l2, hist, a)
    ensures ReceivedFold(l1.txo, a, hist, acc) == ReceivedFold(l2.txo, a, hist, acc)
    decreases |hist|
  {
    if |hist| > 0 {
      assert TxoList(l1.txo, hist[0].txHash, a) == TxoList(l2.txo, hist[0].txHash, a);
      var acc1 := PutReceived(acc, hist[0].txHash, hist[0].height, TxoList(l1.txo, hist[0].txHash, a));
      assert forall j :: 0 <= j < |hist| - 1 ==> hist[1..][j] == hist[j + 1];
      ReceivedFoldCongruent(l1, l2, a, hist[1..], acc1);
    }
  }

  lemma {:induction false} SentFoldCongruent(l1: Ledger, l2: Ledger, a: Addr, hist: seq<HistItem>,
                                             acc: ODict<Outpoint, int>)
    requires Valid(acc)
    requires SameView(l1, l2, hist, a)
    ensures SentFold(l1.txi, a, hist, acc) == SentFold(l2.txi, a, hist, acc)
    decreases |hist|
  {
    if |hist| > 0 {
      assert TxiList(l1.txi, hist[0].txHash, a) == TxiList(l2.txi, hist[0].txHash, a);
      var acc1 := PutSent(acc, hist[0].height, TxiList(l1.txi, hist[0].txHash, a));
      assert forall j :: 0 <= j < |hist| - 1 ==> hist[1..][j] == hist[j + 1];
      SentFoldCongruent(l1, l2, a, hist[1..], acc1);
    }
  }

  /** The balance of an address depends only on its lists at the transactions of its history. */
  lemma ComputedCongruent(l1: Ledger, l2: Ledger, histMap: map<Addr, seq<HistItem>>, a: Addr, ch: Chain)
    requires SameView(l1, l2, HistOf(histMap, a), a)
    ensures Computed(l1.txi, l1.txo, histMap, a, ch) == Computed(l2.txi, l2.txo, histMap, a, ch)
  {
    ReceivedFoldCongruent(l1, l2, a, HistOf(histMap, a), Empty());
    SentFoldCongruent(l1, l2, a, HistOf(histMap, a), Empty());
  }

  /**
   * Entries whose lists agree at every history transaction, and whose cached triple is
   * unchanged, stay sound.
   */
  lemma KeptEntriesSound(l: Ledger, r: Ledger, histMap: map<Addr, seq<HistItem>>, ch: Chain)
    requires CacheSound(l, histMap, ch)
    requires forall a :: a in r.cache ==> a in l.cache && r.cache[a] == l.cache[a] && SameView(l, r, HistOf(histMap, a), a)
    ensures CacheSound(r, histMap, ch)
  {
    forall a | a in r.cache ensures r.cache[a] == Computed(r.txi, r.txo, histMap, a, ch) {
      ComputedCongruent(l, r, histMap, a, ch);
    }
  }

  // ---------------------------------------------------------------------------
  // add_transaction
  // ---------------------------------------------------------------------------

  /** The inputs phase only records spends for addresses whose cache entries it invalidates. */
  lemma {:induction false} InputsFoldSpentInvalidated(txo: map<Hash, AddrLists<TxoEntry>>, mine: set<Addr>, h: Hash,
                                                      acc: InputsDelta, ins: seq<TxIn>)
    requires acc.spent.Keys <= acc.invalidated
    ensures InputsFold(txo, mine, h, acc, ins).spent.Keys <= InputsFold(txo, mine, h, acc, ins).invalidated
    decreases |ins|
  {
    if |ins| > 0 {
      var acc1 := InputStep(txo, mine, h, acc, ins[0]);
      assert acc1.spent.Keys <= acc1.invalidated;
      InputsFoldSpentInvalidated(txo, mine, h, acc1, ins[1..]);
    }
  }

  /** Resolving one output changes `txi` only for the owned output address, whose entry it drops. */
  lemma ResolveOutputKeepsOthers(l: Ledger, mine: set<Addr>, h: Hash, k: nat, o: TxOut, a: Addr)
    ensures var r := ResolveOutput(l, mine, h, k, o);
      && r.txo == l.txo
      && (a in r.cache ==> a in l.cache && r.cache[a] == l.cache[a]
                           && forall g :: TxiList(r.txi, g, a) == TxiList(l.txi, g, a))
  {
    var r := ResolveOutput(l, mine, h, k, o);
    var ser := Outpoint(h, k);
    if a in r.cache && ser in l.pruned && IsMineDest(mine, o.dest) {
      assert a != o.dest.addr;
      forall g ensures TxiList(r.txi, g, a) == TxiList(l.txi, g, a) {
        var next := l.pruned[ser];
        if g == next && g in l.txi && a in l.txi[g] {
          assert a in r.txi[g] && r.txi[g][a] == l.txi[g][a];
        }
      }
    }
  }

  lemma {:induction false} ResolveFromKeepsOthers(l: Ledger, mine: set<Addr>, h: Hash, outs: seq<TxOut>, k: nat, a: Addr)
    ensures var r := ResolveFrom(l, mine, h, outs, k);
      && r.txo == l.txo
      && (a in r.cache ==> a in l.cache && r.cache[a] == l.cache[a]
                           && forall g :: TxiList(r.txi, g, a) == TxiList(l.txi, g, a))
    decreases |outs| - k
  {
    if k < |outs| {
      var l1 := ResolveOutput(l, mine, h, k, outs[k]);
      ResolveOutputKeepsOthers(l, mine, h, k, outs[k], a);
      ResolveFromKeepsOthers(l1, mine, h, outs, k + 1, a);
    }
  }

  /**
   * An address whose cache entry survives add_transaction of `h` reads the same lists as
   * before at every transaction other than `h`, and nothing at `h`.
   */
  lemma AddTransactionKeepsOthers(l: Ledger, mine: set<Addr>, h: Hash, tx: Transaction, a: Addr)
    requires |tx.inputs| > 0
    ensures var r := AddTransaction(l, mine, h, tx);
      a in r.cache ==>
        && a in l.cache && r.cache[a] == l.cache[a]
        && TxiList(r.txi, h, a) == [] && TxoList(r.txo, h, a) == []
        && forall g :: g != h ==> TxiList(r.txi, g, a) == TxiList(l.txi, g, a) && TxoList(r.txo, g, a) == TxoList(l.txo, g, a)
  {
    var l1 := AddInputsPhase(l, mine, h, tx);
    var l2 := StoreOutputs(l1, mine, h, tx);
    var r := ResolveFrom(l2, mine, h, tx.outputs, 0);
    assert r == AddTransaction(l, mine, h, tx);
    ResolveFromKeepsOthers(l2, mine, h, tx.outputs, 0, a);
    if a in r.cache {
      PhasesLeaveNothingAt(l, mine, h, tx, a);
    }
  }

  /** An address cached after add_transaction of `h` holds nothing at `h` once both phases ran. */
  lemma PhasesLeaveNothingAt(l: Ledger, mine: set<Addr>, h: Hash, tx: Transaction, a: Addr)
    requires |tx.inputs| > 0
    requires a in ResolveFrom(StoreOutputs(AddInputsPhase(l, mine, h, tx), mine, h, tx), mine, h, tx.outputs, 0).cache
    ensures var l2 := StoreOutputs(AddInputsPhase(l, mine, h, tx), mine, h, tx);
      && a in l2.cache && l2.cache[a] == l.cache[a]
      && TxiList(l2.txi, h, a) == [] && TxoList(l2.txo, h, a) == []
      && forall g :: g != h ==> TxiList(l2.txi, g, a) == TxiList(l.txi, g, a) && TxoList(l2.txo, g, a) == TxoList(l.txo, g, a)
  {
    var d := InputsFold(l.txo, mine, h, NoDelta, tx.inputs);
    InputsFoldSpentInvalidated(l.txo, mine, h, NoDelta, tx.inputs);
    var l1 := AddInputsPhase(l, mine, h, tx);
    assert l1 == ApplyInputs(l, h, d);
    var l2 := StoreOutputs(l1, mine, h, tx);
    AddTransactionEffects(l, mine, h, tx);
    ResolveFromKeepsOthers(l2, mine, h, tx.outputs, 0, a);
    assert a in l1.cache && a !in d.invalidated;
    assert a !in d.spent;
    var od: AddrLists<TxoEntry> := TxoOf(mine, tx.outputs, tx.inputs[0].kind == Coinbase);
    if a in od {
      assert od[a] != [];
      var e: TxoEntry := od[a][0];
      assert tx.outputs[e.n] == TxOut(PayTo(a), e.value) && IsMineDest(mine, tx.outputs[e.n].dest);
      assert false;
    }
  }

  /**
   * add_transaction keeps the balance cache sound, provided every cached address that lists
   * `h` in its history holds nothing at `h` yet (the usual case: `h` is new to the ledger).
   */
  lemma AddTransactionKeepsCacheSound(l: Ledger, mine: set<Addr>, h: Hash, tx: Transaction,
                                      histMap: map<Addr, seq<HistItem>>, ch: Chain)
    requires CacheSound(l, histMap, ch)
    requires forall a :: a in l.cache && InHistory(HistOf(histMap, a), h) ==>
               TxiList(l.txi, h, a) == [] && TxoList(l.txo, h, a) == []
    ensures CacheSound(AddTransaction(l, mine, h, tx), histMap, ch)
  {
    if |tx.inputs| > 0 {
      var r := AddTransaction(l, mine, h, tx);
      forall a | a in r.cache
        ensures a in l.cache && r.cache[a] == l.cache[a] && SameView(l, r, HistOf(histMap, a), a)
      {
        AddTransactionKeepsOthers(l, mine, h, tx, a);
        var hist := HistOf(histMap, a);
        forall j | 0 <= j < |hist|
          ensures TxoList(l.txo, hist[j].txHash, a) == TxoList(r.txo, hist[j].txHash, a)
          ensures TxiList(l.txi, hist[j].txHash, a) == TxiList(r.txi, hist[j].txHash, a)
        {
          if hist[j].txHash == h {
            assert InHistory(hist, h);
          }
        }
      }
      KeptEntriesSound(l, r, histMap, ch);
    }
  }

  // ---------------------------------------------------------------------------
  // remove_transaction
  // ---------------------------------------------------------------------------

  /** The sweep leaves a spend list alone when none of its entries consumes an output of `h`. */
  lemma {:induction false} DropSpendsOfNone(s: seq<TxiEntry>, h: Hash)
    requires forall e :: e in s ==> e.prevout.hash != h
    ensures DropSpendsOf(s, h) == s
    decreases |s|
  {
    if |s| > 0 {
      assert forall e :: e in s[1..] ==> e in s;
      DropSpendsOfNone(s[1..], h);
      assert s == [s[0]] + s[1..];
    }
  }

  /**
   * An address whose cache entry survives remove_transaction of `h` reads the same lists as
   * before at every transaction other than `h`; it received nothing from `h`.
   */
  lemma RemoveTransactionKeepsOthers(l: Ledger, h: Hash, a: Addr)
    ensures var r := RemoveTransaction(l, h);
      a in r.cache ==>
        && a in l.cache && r.cache[a] == l.cache[a]
        && TxoList(l.txo, h, a) == [] && TxoList(r.txo, h, a) == [] && TxiList(r.txi, h, a) == []
        && forall g :: g != h ==> TxiList(r.txi, g, a) == TxiList(l.txi, g, a) && TxoList(r.txo, g, a) == TxoList(l.txo, g, a)
  {
    var r := RemoveTransaction(l, h);
    if a in r.cache {
      assert a !in TouchedAddrs(l.txi, h);
      assert h in l.txo ==> a !in l.txo[h];
      forall g | g != h ensures TxiList(r.txi, g, a) == TxiList(l.txi, g, a) {
        if g in l.txi && a in l.txi[g] {
          var s := l.txi[g][a];
          assert forall e :: e in s ==> e.prevout.hash != h;
          DropSpendsOfNone(s, h);
          assert r.txi[g] == DropDictSpendsOf(l.txi[g], h);
          if s != [] {
            assert a in r.txi[g] && r.txi[g][a] == s;
          }
        }
      }
    }
  }

  /**
   * remove_transaction keeps the balance cache sound, provided no cached address whose
   * history lists `h` spent anything in `h` (it invalidates the addresses `h` paid and those
   * whose spends of `h`'s outputs it undoes, but not the spenders in `h` itself).
   */
  lemma RemoveTransactionKeepsCacheSound(l: Ledger, h: Hash, histMap: map<Addr, seq<HistItem>>, ch: Chain)
    requires CacheSound(l, histMap, ch)
    requires forall a :: a in l.cache && InHistory(HistOf(histMap, a), h) ==> TxiList(l.txi, h, a) == []
    ensures CacheSound(RemoveTransaction(l, h), histMap, ch)
  {
    var r := RemoveTransaction(l, h);
    forall a | a in r.cache
      ensures a in l.cache && r.cache[a] == l.cache[a] && SameView(l, r, HistOf(histMap, a), a)
    {
      RemoveTransactionKeepsOthers(l, h, a);
      var hist := HistOf(histMap, a);
      forall j | 0 <= j < |hist|
        ensures TxoList(l.txo, hist[j].txHash, a) == TxoList(r.txo, hist[j].txHash, a)
        ensures TxiList(l.txi, hist[j].txHash, a) == TxiList(r.txi, hist[j].txHash, a)
      {
        if hist[j].txHash == h {
          assert InHistory(hist, h);
        }
      }
    }
    KeptEntriesSound(l, r, histMap, ch);
  }
}
