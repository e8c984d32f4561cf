/**
 * Out-of-order spend reconciliation: a spend whose funding output is not yet known is
 * parked as a placeholder and materialised when the funding transaction arrives, so the
 * ledger ends up the same whichever of the two transactions is added first.
 */
module Reconcile {
  import opened Wrappers
  import opened TxModel
  import opened Ledger
  import ODict

  /** The owned addresses paid by outputs `k..` — the cache entries their resolution invalidates. */
  ghost function MineAddrs(mine: set<Addr>, outs: seq<TxOut>, k: nat): set<Addr> {
    set j | k <= j < |outs| && IsMineDest(mine, outs[j].dest) :: outs[j].dest.addr
  }

  /** `txo[h]` set to `d`, or dropped when `d` is empty. */
  function StoreTxo(txo: map<Hash, AddrLists<TxoEntry>>, h: Hash, d: AddrLists<TxoEntry>): map<Hash, AddrLists<TxoEntry>> {
    if d == map[] then txo - {h} else txo[h := d]
  }

  lemma MineAddrsStep(mine: set<Addr>, outs: seq<TxOut>, k: nat)
    requires k < |outs|
    ensures MineAddrs(mine, outs, k)
         == (if IsMineDest(mine, outs[k].dest) then {outs[k].dest.addr} else {}) + MineAddrs(mine, outs, k + 1)
  {
  }

  lemma MineAddrsEnd(mine: set<Addr>, outs: seq<TxOut>, k: nat)
    requires k >= |outs|
    ensures MineAddrs(mine, outs, k) == {}
  {
  }

  lemma StoreTxoCommute(txo: map<Hash, AddrLists<TxoEntry>>, f: Hash, df: AddrLists<TxoEntry>, s: Hash, ds: AddrLists<TxoEntry>)
    requires f != s
    ensures StoreTxo(StoreTxo(txo, f, df), s, ds) == StoreTxo(StoreTxo(txo, s, ds), f, df)
  {
  }

  lemma SetAfterDrop<V>(m: map<Hash, V>, f: Hash, df: V, dropF: bool, s: Hash, x: V)
    requires f != s
    ensures (if dropF then (m - {s}) - {f} else (m - {s})[f := df])[s := x]
         == (if dropF then m - {f} else m[f := df])[s := x]
  {
  }

  lemma PopAfterPut<K, V>(m: map<K, V>, k: K, x: V, puts: map<K, V>)
    requires k !in m && k !in puts
    ensures (m[k := x] + puts) - {k} == m + puts
  {
  }

  /** The inputs phase reads `txo` only at the prevout hashes of the inputs. */
  lemma {:induction false} InputsFoldCongruent(txo1: map<Hash, AddrLists<TxoEntry>>, txo2: map<Hash, AddrLists<TxoEntry>>,
                                               mine: set<Addr>, h: Hash, acc: InputsDelta, ins: seq<TxIn>)
    requires forall i :: 0 <= i < |ins| ==> TxoAt(txo1, ins[i].prevHash) == TxoAt(txo2, ins[i].prevHash)
    ensures InputsFold(txo1, mine, h, acc, ins) == InputsFold(txo2, mine, h, acc, ins)
    decreases |ins|
  {
    if |ins| > 0 {
      var i := ins[0];
      assert FindValue(txo1, i.prevHash, if i.address.Some? then i.address.value else "", i.prevN)
          == FindValue(txo2, i.prevHash, if i.address.Some? then i.address.value else "", i.prevN);
      assert FindInTxo(txo1, i.prevHash, i.prevN) == FindInTxo(txo2, i.prevHash, i.prevN);
      assert InputStep(txo1, mine, h, acc, i) == InputStep(txo2, mine, h, acc, i);
      InputsFoldCongruent(txo1, txo2, mine, h, InputStep(txo1, mine, h, acc, i), ins[1..]);
    }
  }

  /** Every placeholder the inputs phase puts is keyed by the prevout of one of the inputs. */
  lemma {:induction false} InputsFoldPutsAreInputs(txo: map<Hash, AddrLists<TxoEntry>>, mine: set<Addr>, h: Hash,
                                                   acc: InputsDelta, ins: seq<TxIn>)
    ensures forall p :: p in InputsFold(txo, mine, h, acc, ins).puts ==>
              p in acc.puts || exists i :: 0 <= i < |ins| && ins[i].prevHash == p.hash
    decreases |ins|
  {
    if |ins| > 0 {
      var acc1 := InputStep(txo, mine, h, acc, ins[0]);
      InputsFoldPutsAreInputs(txo, mine, h, acc1, ins[1..]);
      forall p | p in InputsFold(txo, mine, h, acc, ins).puts
        ensures p in acc.puts || exists i :: 0 <= i < |ins| && ins[i].prevHash == p.hash
      {
        if p !in acc1.puts {
          var i :| 0 <= i < |ins[1..]| && ins[1..][i].prevHash == p.hash;
          assert ins[i + 1].prevHash == p.hash;
        } else if p !in acc.puts {
          assert ins[0].prevHash == p.hash;
        }
      }
    }
  }

  /** With no placeholder on outputs `k..` of `h`, resolution only invalidates cache entries. */
  lemma {:induction false} ResolveWithoutPlaceholders(l: Ledger, mine: set<Addr>, h: Hash, outs: seq<TxOut>, k: nat)
    requires forall p :: p in l.pruned ==> !(p.hash == h && k <= p.n < |outs|)
    ensures ResolveFrom(l, mine, h, outs, k) == l.(cache := l.cache - MineAddrs(mine, outs, k))
    decreases |outs| - k
  {
    if k >= |outs| {
      MineAddrsEnd(mine, outs, k);
      assert l.cache - {} == l.cache;
    } else {
      var l1 := ResolveOutput(l, mine, h, k, outs[k]);
      assert Outpoint(h, k) !in l.pruned;
      var x: set<Addr> := if IsMineDest(mine, outs[k].dest) then {outs[k].dest.addr} else {};
      assert l1 == l.(cache := l.cache - x);
      ResolveWithoutPlaceholders(l1, mine, h, outs, k + 1);
      MineAddrsStep(mine, outs, k);
      ODict.MinusTwice(l.cache, x, MineAddrs(mine, outs, k + 1));
    }
  }

  /**
   * With exactly one placeholder "h:n" (spender `t`) on outputs `k..` of `h`, and output `n`
   * paying owned address `a` the value `v`, resolution pops it, drops `t` from the spender
   * set and files the spend under `txi[t][a]`.
   */
  lemma {:induction false} ResolveOnePlaceholder(l: Ledger, mine: set<Addr>, h: Hash, outs: seq<TxOut>, k: nat,
                                                 n: nat, t: Hash, a: Addr, v: int)
    requires k <= n < |outs| && outs[n] == TxOut(PayTo(a), v) && a in mine
    requires Outpoint(h, n) in l.pruned && l.pruned[Outpoint(h, n)] == t && t != ""
    requires forall p :: p in l.pruned && p != Outpoint(h, n) ==> l.pruned[p] != t
    requires forall p :: p in l.pruned && p.hash == h && k <= p.n < |outs| ==> p.n == n
    ensures ResolveFrom(l, mine, h, outs, k)
         == l.(pruned := l.pruned - {Outpoint(h, n)},
               prunedValues := l.prunedValues - {t},
               txi := AddToTxi(l.txi, t, a, Outpoint(h, n), v),
               cache := l.cache - MineAddrs(mine, outs, k))
    decreases |outs| - k, 1
  {
    if k == n {
      ResolveAtPlaceholderThenRest(l, mine, h, outs, n, t, a, v);
    } else {
      ResolveBeforePlaceholder(l, mine, h, outs, k, n, t, a, v);
    }
  }

  /** The step of ResolveOnePlaceholder at an output before the placeholder's. */
  lemma ResolveBeforePlaceholder(l: Ledger, mine: set<Addr>, h: Hash, outs: seq<TxOut>, k: nat,
                                 n: nat, t: Hash, a: Addr, v: int)
    requires k < n < |outs| && outs[n] == TxOut(PayTo(a), v) && a in mine
    requires Outpoint(h, n) in l.pruned && l.pruned[Outpoint(h, n)] == t && t != ""
    requires forall p :: p in l.pruned && p != Outpoint(h, n) ==> l.pruned[p] != t
    requires forall p :: p in l.pruned && p.hash == h && k <= p.n < |outs| ==> p.n == n
    ensures ResolveFrom(l, mine, h, outs, k)
         == l.(pruned := l.pruned - {Outpoint(h, n)},
               prunedValues := l.prunedValues - {t},
               txi := AddToTxi(l.txi, t, a, Outpoint(h, n), v),
               cache := l.cache - MineAddrs(mine, outs, k))
    decreases |outs| - k, 0
  {
    assert Outpoint(h, k) !in l.pruned;
    var l1 := ResolvePlainStep(l, mine, h, outs, k);
    ResolveOnePlaceholder(l1, mine, h, outs, k + 1, n, t, a, v);
    var x: set<Addr> := if IsMineDest(mine, outs[k].dest) then {outs[k].dest.addr} else {};
    MineAddrsStep(mine, outs, k);
    ODict.MinusTwice(l.cache, x, MineAddrs(mine, outs, k + 1));
  }

  /** Resolving an output that has no placeholder only drops its owner from the cache. */
  lemma ResolvePlainStep(l: Ledger, mine: set<Addr>, h: Hash, outs: seq<TxOut>, k: nat) returns (l1: Ledger)
    requires k < |outs| && Outpoint(h, k) !in l.pruned
    ensures l1 == l.(cache := l.cache - (if IsMineDest(mine, outs[k].dest) then {outs[k].dest.addr} else {}))
    ensures ResolveFrom(l, mine, h, outs, k) == ResolveFrom(l1, mine, h, outs, k + 1)
  {
    l1 := ResolveOutput(l, mine, h, k, outs[k]);
  }

  /** The step of ResolveOnePlaceholder at the placeholder's own output. */
  lemma ResolveAtPlaceholderThenRest(l: Ledger, mine: set<Addr>, h: Hash, outs: seq<TxOut>, n: nat, t: Hash, a: Addr, v: int)
    requires n < |outs| && outs[n] == TxOut(PayTo(a), v) && a in mine
    requires Outpoint(h, n) in l.pruned && l.pruned[Outpoint(h, n)] == t && t != ""
    requires forall p :: p in l.pruned && p != Outpoint(h, n) ==> l.pruned[p] != t
    requires forall p :: p in l.pruned && p.hash == h && n <= p.n < |outs| ==> p.n == n
    ensures ResolveFrom(l, mine, h, outs, n)
         == l.(pruned := l.pruned - {Outpoint(h, n)},
               prunedValues := l.prunedValues - {t},
               txi := AddToTxi(l.txi, t, a, Outpoint(h, n), v),
               cache := l.cache - MineAddrs(mine, outs, n))
  {
    var l1 := ResolveAtPlaceholder(l, mine, h, n, t, a, v);
    assert ResolveFrom(l, mine, h, outs, n) == ResolveFrom(l1, mine, h, outs, n + 1);
    ResolveWithoutPlaceholders(l1, mine, h, outs, n + 1);
    MineAddrsStep(mine, outs, n);
    ODict.MinusTwice(l.cache, {a}, MineAddrs(mine, outs, n + 1));
  }

  /** Resolving the one output that has a placeholder; returns the resulting ledger. */
  lemma ResolveAtPlaceholder(l: Ledger, mine: set<Addr>, h: Hash, n: nat, t: Hash, a: Addr, v: int) returns (l1: Ledger)
    requires a in mine
    requires Outpoint(h, n) in l.pruned && l.pruned[Outpoint(h, n)] == t && t != ""
    requires forall p :: p in l.pruned && p != Outpoint(h, n) ==> l.pruned[p] != t
    ensures l1 == ResolveOutput(l, mine, h, n, TxOut(PayTo(a), v))
    ensures l1 == l.(pruned := l.pruned - {Outpoint(h, n)},
                     prunedValues := l.prunedValues - {t},
                     txi := AddToTxi(l.txi, t, a, Outpoint(h, n), v),
                     cache := l.cache - {a})
  {
    l1 := ResolveOutput(l, mine, h, n, TxOut(PayTo(a), v));
  }

  /**
   * The two-transaction scenario: `s` has one input, spending output `n` of `f`, which pays
   * owned address `a` the value `v`; `f` is not yet in `txo`, no placeholder waits on an
   * output of `f` or `s` and none names `s` as its spender, and neither transaction spends an
   * output of the other or of itself.
   */
  ghost predicate Scenario(l0: Ledger, mine: set<Addr>, f: Hash, txF: Transaction, s: Hash, txS: Transaction,
                           a: Addr, n: nat, v: int)
  {
    && f != s && s != ""
    && |txF.inputs| > 0
    && txS.inputs == [TxIn(Regular, Some(a), f, n)] && a in mine
    && n < |txF.outputs| && txF.outputs[n] == TxOut(PayTo(a), v)
    && f !in l0.txo
    && (forall p :: p in l0.pruned ==> p.hash != f && p.hash != s)
    && s !in l0.prunedValues && (forall p :: p in l0.pruned ==> l0.pruned[p] != s)
    && (forall i :: 0 <= i < |txF.inputs| ==> txF.inputs[i].prevHash != f && txF.inputs[i].prevHash != s)
  }

  /** The ledger both arrival orders produce. */
  ghost function Expected(l0: Ledger, mine: set<Addr>, f: Hash, txF: Transaction, s: Hash, txS: Transaction,
                          a: Addr, n: nat, v: int): Ledger
    requires |txF.inputs| > 0
  {
    var dF := InputsFold(l0.txo, mine, f, NoDelta, txF.inputs);
    var tF := TxoOf(mine, txF.outputs, txF.inputs[0].kind == Coinbase);
    var tS := TxoOf(mine, txS.outputs, false);
    Ledger(
      txi := (if dF.spent == map[] then l0.txi - {f} else l0.txi[f := dF.spent])[s := map[a := [TxiEntry(Outpoint(f, n), v)]]],
      txo := StoreTxo(StoreTxo(l0.txo, f, tF), s, tS),
      pruned := l0.pruned + dF.puts,
      prunedValues := if dF.puts == map[] then l0.prunedValues else l0.prunedValues + {f},
      cache := l0.cache - (dF.invalidated + MineAddrs(mine, txF.outputs, 0) + {a} + MineAddrs(mine, txS.outputs, 0)))
  }

  lemma PutsAvoidScenarioHashes(l0: Ledger, mine: set<Addr>, f: Hash, txF: Transaction, s: Hash, txS: Transaction,
                                a: Addr, n: nat, v: int)
    requires Scenario(l0, mine, f, txF, s, txS, a, n, v)
    ensures forall p :: p in InputsFold(l0.txo, mine, f, NoDelta, txF.inputs).puts ==> p.hash != f && p.hash != s
  {
    InputsFoldPutsAreInputs(l0.txo, mine, f, NoDelta, txF.inputs);
  }

  /** The ledger after the funding transaction alone. */
  ghost function Funded(l0: Ledger, mine: set<Addr>, f: Hash, txF: Transaction): Ledger
    requires |txF.inputs| > 0
  {
    var l1b := StoreOutputs(ApplyInputs(l0, f, InputsFold(l0.txo, mine, f, NoDelta, txF.inputs)), mine, f, txF);
    l1b.(cache := l1b.cache - MineAddrs(mine, txF.outputs, 0))
  }

  lemma FundAlone(l0: Ledger, mine: set<Addr>, f: Hash, txF: Transaction, s: Hash, txS: Transaction,
                  a: Addr, n: nat, v: int)
    requires Scenario(l0, mine, f, txF, s, txS, a, n, v)
    ensures AddTransaction(l0, mine, f, txF) == Funded(l0, mine, f, txF)
  {
    var dF := InputsFold(l0.txo, mine, f, NoDelta, txF.inputs);
    PutsAvoidScenarioHashes(l0, mine, f, txF, s, txS, a, n, v);
    var l1b := StoreOutputs(ApplyInputs(l0, f, dF), mine, f, txF);
    ResolveWithoutPlaceholders(l1b, mine, f, txF.outputs, 0);
  }

  /** After the funding transaction, the spend finds output n of f under `a`, worth `v`. */
  lemma SpendAfterFundStep(l0: Ledger, mine: set<Addr>, f: Hash, txF: Transaction, s: Hash, txS: Transaction,
                           a: Addr, n: nat, v: int)
    requires Scenario(l0, mine, f, txF, s, txS, a, n, v)
    ensures var l1 := Funded(l0, mine, f, txF);
            InputsFold(l1.txo, mine, s, NoDelta, txS.inputs)
              == InputsDelta(map[a := [TxiEntry(Outpoint(f, n), v)]], map[], {a})
  {
    var l1 := Funded(l0, mine, f, txF);
    var tF := TxoOf(mine, txF.outputs, txF.inputs[0].kind == Coinbase);
    assert l1.txo[f] == tF && a in tF;
    var e :| e in tF[a] && e == TxoEntry(n, v, txF.inputs[0].kind == Coinbase);
    var found := FindN(tF[a], n);
    assert found.Some?;
    assert found == Some(v);
    assert FindValue(l1.txo, f, a, n) == Some(v);
    var dS := InputsDelta(map[a := [TxiEntry(Outpoint(f, n), v)]], map[], {a});
    assert InputsFold(l1.txo, mine, s, NoDelta, txS.inputs) == InputStep(l1.txo, mine, s, NoDelta, txS.inputs[0]);
    assert [] + [TxiEntry(Outpoint(f, n), v)] == [TxiEntry(Outpoint(f, n), v)];
    assert AppendTo(NoDelta.spent, a, TxiEntry(Outpoint(f, n), v)) == dS.spent;
  }

  lemma SpendAfterFund(l0: Ledger, mine: set<Addr>, f: Hash, txF: Transaction, s: Hash, txS: Transaction,
                       a: Addr, n: nat, v: int)
    requires Scenario(l0, mine, f, txF, s, txS, a, n, v)
    ensures AddTransaction(Funded(l0, mine, f, txF), mine, s, txS) == Expected(l0, mine, f, txF, s, txS, a, n, v)
  {
    var l1 := Funded(l0, mine, f, txF);
    var dF := InputsFold(l0.txo, mine, f, NoDelta, txF.inputs);
    PutsAvoidScenarioHashes(l0, mine, f, txF, s, txS, a, n, v);
    SpendAfterFundStep(l0, mine, f, txF, s, txS, a, n, v);
    var dS := InputsDelta(map[a := [TxiEntry(Outpoint(f, n), v)]], map[], {a});
    var l2b := StoreOutputs(ApplyInputs(l1, s, dS), mine, s, txS);
    ResolveWithoutPlaceholders(l2b, mine, s, txS.outputs, 0);
    var l2 := l2b.(cache := l2b.cache - MineAddrs(mine, txS.outputs, 0));
    assert AddTransaction(l1, mine, s, txS) == l2;
    SpendAfterFundFields(l0, mine, f, txF, s, txS, a, n, v);
  }

  lemma SpendAfterFundFields(l0: Ledger, mine: set<Addr>, f: Hash, txF: Transaction, s: Hash, txS: Transaction,
                             a: Addr, n: nat, v: int)
    requires Scenario(l0, mine, f, txF, s, txS, a, n, v)
    ensures var l1 := Funded(l0, mine, f, txF);
            var dS := InputsDelta(map[a := [TxiEntry(Outpoint(f, n), v)]], map[], {a});
            var l2b := StoreOutputs(ApplyInputs(l1, s, dS), mine, s, txS);
            l2b.(cache := l2b.cache - MineAddrs(mine, txS.outputs, 0)) == Expected(l0, mine, f, txF, s, txS, a, n, v)
  {
    var dF := InputsFold(l0.txo, mine, f, NoDelta, txF.inputs);
    var dS := InputsDelta(map[a := [TxiEntry(Outpoint(f, n), v)]], map[], {a});
    var tF := TxoOf(mine, txF.outputs, txF.inputs[0].kind == Coinbase);
    var tS := TxoOf(mine, txS.outputs, false);
    var mA := MineAddrs(mine, txF.outputs, 0);
    var mS := MineAddrs(mine, txS.outputs, 0);
    StoreApplyIs(l0, mine, f, dF, txF);
    var l1 := Funded(l0, mine, f, txF);
    assert l1 == Ledger(if dF.spent == map[] then l0.txi - {f} else l0.txi[f := dF.spent], StoreTxo(l0.txo, f, tF),
                        l0.pruned + dF.puts, if dF.puts == map[] then l0.prunedValues else l0.prunedValues + {f},
                        (l0.cache - dF.invalidated) - mA);
    StoreApplyIs(l1, mine, s, dS, txS);
    assert dS.spent != map[] by { assert a in dS.spent; }
    PlusNothing(l1.pruned);
    var l2b := StoreOutputs(ApplyInputs(l1, s, dS), mine, s, txS);
    assert l2b == Ledger(l1.txi[s := dS.spent], StoreTxo(l1.txo, s, tS), l1.pruned, l1.prunedValues, l1.cache - {a});
    ODict.MinusTwice(l0.cache, dF.invalidated, mA);
    ODict.MinusTwice(l0.cache, dF.invalidated + mA, {a});
    ODict.MinusTwice(l0.cache, dF.invalidated + mA + {a}, mS);
    var ex := Expected(l0, mine, f, txF, s, txS, a, n, v);
    assert ex.txi == l1.txi[s := dS.spent];
    assert ex.txo == StoreTxo(l1.txo, s, tS);
    assert ex.cache == (l1.cache - {a}) - mS;
  }

  lemma PlusNothing<K, V>(m: map<K, V>)
    ensures m + map[] == m
  {
  }

  /** The two phases of add_transaction before resolution, field by field. */
  lemma StoreApplyIs(l: Ledger, mine: set<Addr>, h: Hash, d: InputsDelta, tx: Transaction)
    requires |tx.inputs| > 0
    ensures StoreOutputs(ApplyInputs(l, h, d), mine, h, tx)
            == Ledger(if d.spent == map[] then l.txi - {h} else l.txi[h := d.spent],
                      StoreTxo(l.txo, h, TxoOf(mine, tx.outputs, tx.inputs[0].kind == Coinbase)),
                      l.pruned + d.puts,
                      if d.puts == map[] then l.prunedValues else l.prunedValues + {h},
                      l.cache - d.invalidated)
  {
  }

  /** The ledger after the spend alone: "f:n" parked under `s`, no `txi[s]`. */
  ghost function Parked(l0: Ledger, mine: set<Addr>, f: Hash, s: Hash, txS: Transaction, a: Addr, n: nat): Ledger {
    l0.(txi := l0.txi - {s},
        txo := StoreTxo(l0.txo, s, TxoOf(mine, txS.outputs, false)),
        pruned := l0.pruned[Outpoint(f, n) := s],
        prunedValues := l0.prunedValues + {s},
        cache := l0.cache - ({a} + MineAddrs(mine, txS.outputs, 0)))
  }

  /** A spend of an owned output whose funding transaction is unknown is parked as "f:n" -> s. */
  lemma SpendParksPlaceholder(l0: Ledger, mine: set<Addr>, f: Hash, txF: Transaction, s: Hash, txS: Transaction,
                              a: Addr, n: nat, v: int)
    requires Scenario(l0, mine, f, txF, s, txS, a, n, v)
    ensures AddTransaction(l0, mine, s, txS) == Parked(l0, mine, f, s, txS, a, n)
    ensures Outpoint(f, n) in AddTransaction(l0, mine, s, txS).pruned
    ensures AddTransaction(l0, mine, s, txS).pruned[Outpoint(f, n)] == s
  {
    var ser := Outpoint(f, n);
    var dS := InputsDelta(map[], map[ser := s], {a});
    assert InputsFold(l0.txo, mine, s, NoDelta, txS.inputs) == InputStep(l0.txo, mine, s, NoDelta, txS.inputs[0]);
    assert FindValue(l0.txo, f, a, n) == None;
    assert InputStep(l0.txo, mine, s, NoDelta, txS.inputs[0]) == dS;
    var m1a := ApplyInputs(l0, s, dS);
    assert m1a.pruned == l0.pruned[ser := s];
    var m1b := StoreOutputs(m1a, mine, s, txS);
    ResolveWithoutPlaceholders(m1b, mine, s, txS.outputs, 0);
    ODict.MinusTwice(l0.cache, {a}, MineAddrs(mine, txS.outputs, 0));
  }

  /** The ledger after the funding transaction resolved the parked spend, as resolution leaves it. */
  ghost function Resolved(l0: Ledger, mine: set<Addr>, f: Hash, txF: Transaction, s: Hash, txS: Transaction,
                          a: Addr, n: nat, v: int): Ledger
    requires |txF.inputs| > 0
  {
    var m2b := FundOverParked(l0, mine, f, txF, s, txS, a, n);
    m2b.(pruned := m2b.pruned - {Outpoint(f, n)},
         prunedValues := m2b.prunedValues - {s},
         txi := AddToTxi(m2b.txi, s, a, Outpoint(f, n), v),
         cache := m2b.cache - MineAddrs(mine, txF.outputs, 0))
  }

  /** The funding transaction resolves the parked spend. */
  lemma FundAfterParked(l0: Ledger, mine: set<Addr>, f: Hash, txF: Transaction, s: Hash, txS: Transaction,
                        a: Addr, n: nat, v: int)
    requires Scenario(l0, mine, f, txF, s, txS, a, n, v)
    ensures AddTransaction(Parked(l0, mine, f, s, txS, a, n), mine, f, txF) == Resolved(l0, mine, f, txF, s, txS, a, n, v)
  {
    var m2b := FundOverParked(l0, mine, f, txF, s, txS, a, n);
    FundOverParkedInputs(l0, mine, f, txF, s, txS, a, n, v);
    FundOverParkedPruned(l0, mine, f, txF, s, txS, a, n, v);
    ResolveOnePlaceholder(m2b, mine, f, txF.outputs, 0, n, s, a, v);
  }

  /** The parked ledger once the funding transaction's inputs phase and outputs are stored. */
  ghost function FundOverParked(l0: Ledger, mine: set<Addr>, f: Hash, txF: Transaction, s: Hash, txS: Transaction,
                                a: Addr, n: nat): Ledger
    requires |txF.inputs| > 0
  {
    StoreOutputs(ApplyInputs(Parked(l0, mine, f, s, txS, a, n), f, InputsFold(l0.txo, mine, f, NoDelta, txF.inputs)), mine, f, txF)
  }

  /** The funding transaction reads the same outputs over the parked ledger as over the initial one. */
  lemma FundOverParkedInputs(l0: Ledger, mine: set<Addr>, f: Hash, txF: Transaction, s: Hash, txS: Transaction,
                             a: Addr, n: nat, v: int)
    requires Scenario(l0, mine, f, txF, s, txS, a, n, v)
    ensures AddTransaction(Parked(l0, mine, f, s, txS, a, n), mine, f, txF)
         == ResolveFrom(FundOverParked(l0, mine, f, txF, s, txS, a, n), mine, f, txF.outputs, 0)
  {
    var m1 := Parked(l0, mine, f, s, txS, a, n);
    assert forall i :: 0 <= i < |txF.inputs| ==> TxoAt(m1.txo, txF.inputs[i].prevHash) == TxoAt(l0.txo, txF.inputs[i].prevHash);
    InputsFoldCongruent(m1.txo, l0.txo, mine, f, NoDelta, txF.inputs);
  }

  /** Over the parked ledger, "f:n" is the one placeholder on `f` and the one naming `s`. */
  lemma FundOverParkedPruned(l0: Ledger, mine: set<Addr>, f: Hash, txF: Transaction, s: Hash, txS: Transaction,
                             a: Addr, n: nat, v: int)
    requires Scenario(l0, mine, f, txF, s, txS, a, n, v)
    ensures var m2b := FundOverParked(l0, mine, f, txF, s, txS, a, n);
            && Outpoint(f, n) in m2b.pruned && m2b.pruned[Outpoint(f, n)] == s
            && (forall p :: p in m2b.pruned && p != Outpoint(f, n) ==> m2b.pruned[p] != s)
            && (forall p :: p in m2b.pruned && p.hash == f ==> p == Outpoint(f, n))
  {
    var dF := InputsFold(l0.txo, mine, f, NoDelta, txF.inputs);
    PutsAvoidScenarioHashes(l0, mine, f, txF, s, txS, a, n, v);
    InputsFoldPutsName(l0.txo, mine, f, NoDelta, txF.inputs);
    assert FundOverParked(l0, mine, f, txF, s, txS, a, n).pruned == l0.pruned[Outpoint(f, n) := s] + dF.puts;
  }

  lemma ResolvedTxi(l0: Ledger, mine: set<Addr>, f: Hash, txF: Transaction, s: Hash, txS: Transaction,
                           a: Addr, n: nat, v: int)
    requires Scenario(l0, mine, f, txF, s, txS, a, n, v)
    ensures Resolved(l0, mine, f, txF, s, txS, a, n, v).txi == Expected(l0, mine, f, txF, s, txS, a, n, v).txi
  {
    var ser := Outpoint(f, n);
    var m1 := Parked(l0, mine, f, s, txS, a, n);
    var dF := InputsFold(l0.txo, mine, f, NoDelta, txF.inputs);
    PutsAvoidScenarioHashes(l0, mine, f, txF, s, txS, a, n, v);
    var m2b := StoreOutputs(ApplyInputs(m1, f, dF), mine, f, txF);
    var m2 := Resolved(l0, mine, f, txF, s, txS, a, n, v);
    var ex := Expected(l0, mine, f, txF, s, txS, a, n, v);
    var e := TxiEntry(ser, v);
    assert s !in m2b.txi;
    assert AppendTo(map[], a, e) == map[a := [e]] by { assert [] + [e] == [e]; }
    assert m2.txi == m2b.txi[s := map[a := [e]]];
    SetAfterDrop(l0.txi, f, dF.spent, dF.spent == map[], s, map[a := [e]]);
  }

  lemma ResolvedTxo(l0: Ledger, mine: set<Addr>, f: Hash, txF: Transaction, s: Hash, txS: Transaction,
                           a: Addr, n: nat, v: int)
    requires Scenario(l0, mine, f, txF, s, txS, a, n, v)
    ensures Resolved(l0, mine, f, txF, s, txS, a, n, v).txo == Expected(l0, mine, f, txF, s, txS, a, n, v).txo
  {
    var tF := TxoOf(mine, txF.outputs, txF.inputs[0].kind == Coinbase);
    var tS := TxoOf(mine, txS.outputs, false);
    assert FundOverParked(l0, mine, f, txF, s, txS, a, n).txo == StoreTxo(StoreTxo(l0.txo, s, tS), f, tF);
    StoreTxoCommute(l0.txo, f, tF, s, tS);
  }

  lemma ResolvedPruned(l0: Ledger, mine: set<Addr>, f: Hash, txF: Transaction, s: Hash, txS: Transaction,
                           a: Addr, n: nat, v: int)
    requires Scenario(l0, mine, f, txF, s, txS, a, n, v)
    ensures Resolved(l0, mine, f, txF, s, txS, a, n, v).pruned == Expected(l0, mine, f, txF, s, txS, a, n, v).pruned
    ensures Resolved(l0, mine, f, txF, s, txS, a, n, v).prunedValues == Expected(l0, mine, f, txF, s, txS, a, n, v).prunedValues
  {
    ResolvedPrunedMap(l0, mine, f, txF, s, txS, a, n, v);
    ResolvedPrunedValues(l0, mine, f, txF, s, txS, a, n, v);
  }

  lemma ResolvedPrunedMap(l0: Ledger, mine: set<Addr>, f: Hash, txF: Transaction, s: Hash, txS: Transaction,
                          a: Addr, n: nat, v: int)
    requires Scenario(l0, mine, f, txF, s, txS, a, n, v)
    ensures Resolved(l0, mine, f, txF, s, txS, a, n, v).pruned == Expected(l0, mine, f, txF, s, txS, a, n, v).pruned
  {
    var ser := Outpoint(f, n);
    var dF := InputsFold(l0.txo, mine, f, NoDelta, txF.inputs);
    PutsAvoidScenarioHashes(l0, mine, f, txF, s, txS, a, n, v);
    assert FundOverParked(l0, mine, f, txF, s, txS, a, n).pruned == l0.pruned[ser := s] + dF.puts;
    PopAfterPut(l0.pruned, ser, s, dF.puts);
  }

  lemma ResolvedPrunedValues(l0: Ledger, mine: set<Addr>, f: Hash, txF: Transaction, s: Hash, txS: Transaction,
                             a: Addr, n: nat, v: int)
    requires Scenario(l0, mine, f, txF, s, txS, a, n, v)
    ensures Resolved(l0, mine, f, txF, s, txS, a, n, v).prunedValues == Expected(l0, mine, f, txF, s, txS, a, n, v).prunedValues
  {
  }

  lemma ResolvedCache(l0: Ledger, mine: set<Addr>, f: Hash, txF: Transaction, s: Hash, txS: Transaction,
                           a: Addr, n: nat, v: int)
    requires Scenario(l0, mine, f, txF, s, txS, a, n, v)
    ensures Resolved(l0, mine, f, txF, s, txS, a, n, v).cache == Expected(l0, mine, f, txF, s, txS, a, n, v).cache
  {
    var dF := InputsFold(l0.txo, mine, f, NoDelta, txF.inputs);
    var mA := MineAddrs(mine, txF.outputs, 0);
    var mS := MineAddrs(mine, txS.outputs, 0);
    assert FundOverParked(l0, mine, f, txF, s, txS, a, n).cache == (l0.cache - ({a} + mS)) - dF.invalidated;
    ODict.MinusTwice(l0.cache, {a} + mS, dF.invalidated);
    ODict.MinusTwice(l0.cache, {a} + mS + dF.invalidated, mA);
    assert {a} + mS + dF.invalidated + mA == dF.invalidated + mA + {a} + mS;
  }

  lemma ResolvedIsExpected(l0: Ledger, mine: set<Addr>, f: Hash, txF: Transaction, s: Hash, txS: Transaction,
                           a: Addr, n: nat, v: int)
    requires Scenario(l0, mine, f, txF, s, txS, a, n, v)
    ensures Resolved(l0, mine, f, txF, s, txS, a, n, v) == Expected(l0, mine, f, txF, s, txS, a, n, v)
  {
    ResolvedTxi(l0, mine, f, txF, s, txS, a, n, v);
    ResolvedTxo(l0, mine, f, txF, s, txS, a, n, v);
    ResolvedPruned(l0, mine, f, txF, s, txS, a, n, v);
    ResolvedCache(l0, mine, f, txF, s, txS, a, n, v);
  }

  /**
   * Reconciliation: adding the spend before its funding transaction gives the same ledger
   * as the funding-first order; the spend is filed under `txi[s][a]` and no placeholder
   * for "f:n" remains.
   */
  lemma ArrivalOrderIrrelevant(l0: Ledger, mine: set<Addr>, f: Hash, txF: Transaction, s: Hash, txS: Transaction,
                               a: Addr, n: nat, v: int)
    requires Scenario(l0, mine, f, txF, s, txS, a, n, v)
    ensures var fundFirst := AddTransaction(AddTransaction(l0, mine, f, txF), mine, s, txS);
            && AddTransaction(AddTransaction(l0, mine, s, txS), mine, f, txF) == fundFirst
            && s in fundFirst.txi && fundFirst.txi[s] == map[a := [TxiEntry(Outpoint(f, n), v)]]
            && Outpoint(f, n) !in fundFirst.pruned
  {
    FundAlone(l0, mine, f, txF, s, txS, a, n, v);
    SpendAfterFund(l0, mine, f, txF, s, txS, a, n, v);
    SpendParksPlaceholder(l0, mine, f, txF, s, txS, a, n, v);
    FundAfterParked(l0, mine, f, txF, s, txS, a, n, v);
    ResolvedIsExpected(l0, mine, f, txF, s, txS, a, n, v);
    PutsAvoidScenarioHashes(l0, mine, f, txF, s, txS, a, n, v);
  }

  // ---------------------------------------------------------------------------
  // Adding the same transaction twice
  // ---------------------------------------------------------------------------

  /**
   * Resolution of `h`'s outputs leaves alone `txi[t]` and the flag of `t` for a transaction
   * `t` that no placeholder of `h`'s outputs names.
   */
  lemma {:induction false} ResolveFromLeaves(l: Ledger, mine: set<Addr>, h: Hash, outs: seq<TxOut>, k: nat, t: Hash)
    requires forall p :: p in l.pruned && p.hash == h ==> l.pruned[p] != t
    ensures var r := ResolveFrom(l, mine, h, outs, k);
            && (t in r.txi <==> t in l.txi)
            && (t in l.txi ==> r.txi[t] == l.txi[t])
            && (t in l.prunedValues ==> t in r.prunedValues)
    decreases |outs| - k
  {
    if k < |outs| {
      var l1 := ResolveOutput(l, mine, h, k, outs[k]);
      assert forall p :: p in l1.pruned ==> p in l.pruned && l1.pruned[p] == l.pruned[p];
      ResolveFromLeaves(l1, mine, h, outs, k + 1, t);
    }
  }

  /** Adding `h` a second time finds the inputs phase reading the same funding outputs. */
  lemma SecondInputsPhase(l: Ledger, mine: set<Addr>, h: Hash, tx: Transaction)
    requires |tx.inputs| > 0
    requires forall i :: 0 <= i < |tx.inputs| ==> tx.inputs[i].prevHash != h
    ensures InputsFold(AddTransaction(l, mine, h, tx).txo, mine, h, NoDelta, tx.inputs)
         == InputsFold(l.txo, mine, h, NoDelta, tx.inputs)
  {
    var lb := StoreOutputs(AddInputsPhase(l, mine, h, tx), mine, h, tx);
    ResolveFromMeaning(lb, mine, h, tx.outputs, 0);
    InputsFoldCongruent(AddTransaction(l, mine, h, tx).txo, l.txo, mine, h, NoDelta, tx.inputs);
  }

  /** The first addition of `h` from the three phases, named. */
  ghost function FirstDelta(l: Ledger, mine: set<Addr>, h: Hash, tx: Transaction): InputsDelta {
    InputsFold(l.txo, mine, h, NoDelta, tx.inputs)
  }

  ghost function BeforeResolve(l: Ledger, mine: set<Addr>, h: Hash, tx: Transaction): Ledger
    requires |tx.inputs| > 0
  {
    StoreOutputs(AddInputsPhase(l, mine, h, tx), mine, h, tx)
  }

  /** Storing an inputs delta the ledger already holds changes nothing. */
  lemma ApplyHeldDelta(l: Ledger, h: Hash, d: InputsDelta)
    requires d.spent == map[] ==> h !in l.txi
    requires d.spent != map[] ==> h in l.txi && l.txi[h] == d.spent
    requires forall p :: p in d.puts ==> p in l.pruned && l.pruned[p] == d.puts[p]
    requires d.puts != map[] ==> h in l.prunedValues
    requires forall a :: a in d.invalidated ==> a !in l.cache
    ensures ApplyInputs(l, h, d) == l
  {
    assert l.pruned + d.puts == l.pruned;
    assert l.cache - d.invalidated == l.cache;
  }

  /** What the first addition of `h` leaves that the inputs phase would store again. */
  lemma FirstAddHoldsDelta(l: Ledger, mine: set<Addr>, h: Hash, tx: Transaction)
    requires |tx.inputs| > 0
    requires forall i :: 0 <= i < |tx.inputs| ==> tx.inputs[i].prevHash != h
    requires forall p :: p in l.pruned && p.hash == h ==> l.pruned[p] != h
    ensures var d := FirstDelta(l, mine, h, tx);
            var l1 := AddTransaction(l, mine, h, tx);
            && (d.spent == map[] ==> h !in l1.txi)
            && (d.spent != map[] ==> h in l1.txi && l1.txi[h] == d.spent)
            && (forall p :: p in d.puts ==> p in l1.pruned && l1.pruned[p] == d.puts[p])
            && (d.puts != map[] ==> h in l1.prunedValues)
            && (forall a :: a in d.invalidated ==> a !in l1.cache)
  {
    var d := FirstDelta(l, mine, h, tx);
    var lb := BeforeResolve(l, mine, h, tx);
    assert lb.pruned == l.pruned + d.puts;
    assert lb.cache == l.cache - d.invalidated;
    assert d.spent == map[] ==> h !in lb.txi;
    assert d.spent != map[] ==> h in lb.txi && lb.txi[h] == d.spent;
    assert d.puts != map[] ==> h in lb.prunedValues;
    InputsFoldPutsAreInputs(l.txo, mine, h, NoDelta, tx.inputs);
    InputsFoldPutsName(l.txo, mine, h, NoDelta, tx.inputs);
    assert forall p :: p in d.puts ==> p.hash != h && d.puts[p] == h;
    assert forall p :: p in lb.pruned && p.hash == h ==> lb.pruned[p] != h;
    ResolveFromMeaning(lb, mine, h, tx.outputs, 0);
    ResolveFromLeaves(lb, mine, h, tx.outputs, 0, h);
  }

  /** With its own placeholders gone, replaying the outputs phase of `h` changes nothing. */
  lemma SecondResolveIsNoop(l: Ledger, mine: set<Addr>, h: Hash, tx: Transaction)
    requires |tx.inputs| > 0
    ensures var l1 := AddTransaction(l, mine, h, tx);
            ResolveFrom(StoreOutputs(l1, mine, h, tx), mine, h, tx.outputs, 0) == l1
  {
    var lb := BeforeResolve(l, mine, h, tx);
    var l1 := AddTransaction(l, mine, h, tx);
    var t := TxoOf(mine, tx.outputs, tx.inputs[0].kind == Coinbase);
    ResolveFromMeaning(lb, mine, h, tx.outputs, 0);
    ResolveKeepsTxo(lb, mine, h, tx.outputs, 0);
    assert lb.txo == StoreTxo(AddInputsPhase(l, mine, h, tx).txo, h, t);
    StoreTxoTwice(AddInputsPhase(l, mine, h, tx).txo, h, t);
    assert StoreOutputs(l1, mine, h, tx) == l1.(txo := StoreTxo(l1.txo, h, t));
    ResolveWithoutPlaceholders(l1, mine, h, tx.outputs, 0);
    ODict.MinusNone(l1.cache, MineAddrs(mine, tx.outputs, 0));
  }

  /** Storing the same outputs twice stores them once. */
  lemma StoreTxoTwice(txo: map<Hash, AddrLists<TxoEntry>>, h: Hash, d: AddrLists<TxoEntry>)
    ensures StoreTxo(StoreTxo(txo, h, d), h, d) == StoreTxo(txo, h, d)
  {
  }

  /**
   * add_transaction is idempotent: adding a transaction that does not spend its own outputs
   * a second time, when no placeholder claims it spends them, leaves the ledger as the first
   * addition left it.
   */
  lemma AddTransactionIdempotent(l: Ledger, mine: set<Addr>, h: Hash, tx: Transaction)
    requires forall i :: 0 <= i < |tx.inputs| ==> tx.inputs[i].prevHash != h
    requires forall p :: p in l.pruned && p.hash == h ==> l.pruned[p] != h
    ensures AddTransaction(AddTransaction(l, mine, h, tx), mine, h, tx) == AddTransaction(l, mine, h, tx)
  {
    if |tx.inputs| > 0 {
      var l1 := AddTransaction(l, mine, h, tx);
      SecondInputsPhase(l, mine, h, tx);
      FirstAddHoldsDelta(l, mine, h, tx);
      ApplyHeldDelta(l1, h, FirstDelta(l, mine, h, tx));
      SecondResolveIsNoop(l, mine, h, tx);
      assert AddInputsPhase(l1, mine, h, tx) == l1;
    }
  }
}
