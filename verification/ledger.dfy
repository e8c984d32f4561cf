/**
 * The wallet's transaction ledger: per-transaction received (`txo`) and spent (`txi`)
 * indexes keyed by owned address, the out-of-order spend placeholders (`pruned_txo`),
 * the companion set of spenders (`pruned_txo_values`) and the balance cache whose
 * entries the ledger invalidates.
 */
module Ledger {
  import opened Wrappers
  import opened TxModel

  /** One received coin of an address: output index, value, and whether the funding tx is coinbase. */
  datatype TxoEntry = TxoEntry(n: nat, value: int, isCoinbase: bool)

  /** One spend by an address: the output reference consumed and its value. */
  datatype TxiEntry = TxiEntry(prevout: Outpoint, value: int)

  /** A cached balance triple (confirmed, unconfirmed, immature). */
  datatype Balance = Balance(confirmed: int, unconfirmed: int, immature: int)

  type AddrLists<T> = map<Addr, seq<T>>

  datatype Ledger = Ledger(
    txi: map<Hash, AddrLists<TxiEntry>>,
    txo: map<Hash, AddrLists<TxoEntry>>,
    pruned: map<Outpoint, Hash>,
    prunedValues: set<Hash>,
    cache: map<Addr, Balance>)

  const EmptyLedger := Ledger(map[], map[], map[], {}, map[])

  /** No per-transaction dictionary in `txi` or `txo` is empty. */
  ghost predicate NoEmptyDicts(l: Ledger) {
    && (forall t :: t in l.txi ==> l.txi[t] != map[])
    && (forall t :: t in l.txo ==> l.txo[t] != map[])
  }

  /** Append `e` to the list of address `a`, creating the list when absent. */
  function AppendTo<T>(d: AddrLists<T>, a: Addr, e: T): (r: AddrLists<T>)
    ensures r.Keys == d.Keys + {a}
    ensures r[a] == (if a in d then d[a] else []) + [e]
    ensures forall b :: b in d && b != a ==> r[b] == d[b]
  {
    d[a := (if a in d then d[a] else []) + [e]]
  }

  /** add_to_self_txi: record that transaction `t` spent `ser` (worth `v`) from address `a`. */
  function AddToTxi(txi: map<Hash, AddrLists<TxiEntry>>, t: Hash, a: Addr, ser: Outpoint, v: int)
    : (r: map<Hash, AddrLists<TxiEntry>>)
    ensures r.Keys == txi.Keys + {t}
    ensures a in r[t] && r[t][a] == (if t in txi && a in txi[t] then txi[t][a] else []) + [TxiEntry(ser, v)]
    ensures forall u :: u in txi && u != t ==> r[u] == txi[u]
    ensures t in txi ==> forall b :: b in txi[t] && b != a ==> b in r[t] && r[t][b] == txi[t][b]
    ensures r[t].Keys == (if t in txi then txi[t].Keys else {}) + {a}
  {
    txi[t := AppendTo(if t in txi then txi[t] else map[], a, TxiEntry(ser, v))]
  }

  /** The value of the first entry of `l` for output index `n`, if any. */
  function FindN(l: seq<TxoEntry>, n: nat): (r: Option<int>)
    ensures r.Some? <==> exists i :: 0 <= i < |l| && l[i].n == n
    ensures r.Some? ==> exists i :: 0 <= i < |l| && l[i].n == n && l[i].value == r.value
  {
    if |l| == 0 then None
    else if l[0].n == n then Some(l[0].value)
    else
      var r := FindN(l[1..], n);
      assert forall i :: 0 <= i < |l| - 1 ==> l[1..][i] == l[i + 1];
      r
  }

  /** `self.txo.get(ph, {})` */
  function TxoAt(txo: map<Hash, AddrLists<TxoEntry>>, ph: Hash): AddrLists<TxoEntry> {
    if ph in txo then txo[ph] else map[]
  }

  /** The loop over `txo[prevout_hash][addr]` looking for `prevout_n`. */
  function FindValue(txo: map<Hash, AddrLists<TxoEntry>>, ph: Hash, a: Addr, n: nat): Option<int> {
    var dd := TxoAt(txo, ph);
    if a in dd then FindN(dd[a], n) else None
  }

  ghost predicate DictHoldsN(dd: AddrLists<TxoEntry>, a: Addr, n: nat) {
    a in dd && FindN(dd[a], n).Some?
  }

  /**
   * find_in_self_txo on one transaction's received lists: some address whose list holds
   * index `n`, with that entry's value. The source returns the first one in dictionary
   * order; the model picks one without fixing which (add_transaction never files one
   * index under two addresses).
   */
  ghost function FindInDict(dd: AddrLists<TxoEntry>, n: nat): (r: Option<(Addr, int)>)
    ensures r.Some? <==> exists a :: DictHoldsN(dd, a, n)
    ensures r.Some? ==> r.value.0 in dd && FindN(dd[r.value.0], n) == Some(r.value.1)
  {
    if exists a :: DictHoldsN(dd, a, n) then
      var a :| DictHoldsN(dd, a, n);
      Some((a, FindN(dd[a], n).value))
    else None
  }

  /** find_in_self_txo(prevout_hash, prevout_n) */
  ghost function FindInTxo(txo: map<Hash, AddrLists<TxoEntry>>, ph: Hash, n: nat): Option<(Addr, int)> {
    FindInDict(TxoAt(txo, ph), n)
  }

  // ---------------------------------------------------------------------------
  // add_transaction, inputs phase. The loop only reads `txo`, so its effect is a delta:
  // the spends filed under this transaction, the placeholders it puts, and the
  // addresses whose cache entries it invalidates.
  // ---------------------------------------------------------------------------

  datatype InputsDelta = InputsDelta(spent: AddrLists<TxiEntry>, puts: map<Outpoint, Hash>, invalidated: set<Addr>)

  const NoDelta := InputsDelta(map[], map[], {})

  ghost function InputStep(txo: map<Hash, AddrLists<TxoEntry>>, mine: set<Addr>, h: Hash,
                           acc: InputsDelta, i: TxIn): InputsDelta
  {
    if i.kind == Coinbase then acc
    else
      var ser := Outpoint(i.prevHash, i.prevN);
      if IsMineOpt(mine, i.address) then
        var a := i.address.value;
        var acc1 := match FindValue(txo, i.prevHash, a, i.prevN)
          case Some(v) => acc.(spent := AppendTo(acc.spent, a, TxiEntry(ser, v)))
          case None => acc.(puts := acc.puts[ser := h]);
        acc1.(invalidated := acc1.invalidated + {a})
      else if i.address.None? then
        match FindInTxo(txo, i.prevHash, i.prevN)
        case Some(found) =>
          if found.0 in mine then
            acc.(spent := AppendTo(acc.spent, found.0, TxiEntry(ser, found.1)),
                 invalidated := acc.invalidated + {found.0})
          else acc.(puts := acc.puts[ser := h])
        case None => acc.(puts := acc.puts[ser := h])
      else acc
  }

  ghost function InputsFold(txo: map<Hash, AddrLists<TxoEntry>>, mine: set<Addr>, h: Hash,
                            acc: InputsDelta, ins: seq<TxIn>): InputsDelta
    decreases |ins|
  {
    if |ins| == 0 then acc
    else InputsFold(txo, mine, h, InputStep(txo, mine, h, acc, ins[0]), ins[1..])
  }

  /** Every placeholder the inputs phase of `h` puts names `h` as its spender. */
  lemma {:induction false} InputsFoldPutsName(txo: map<Hash, AddrLists<TxoEntry>>, mine: set<Addr>, h: Hash,
                                              acc: InputsDelta, ins: seq<TxIn>)
    requires forall p :: p in acc.puts ==> acc.puts[p] == h
    ensures forall p :: p in InputsFold(txo, mine, h, acc, ins).puts ==> InputsFold(txo, mine, h, acc, ins).puts[p] == h
    decreases |ins|
  {
    if |ins| > 0 {
      var acc1 := InputStep(txo, mine, h, acc, ins[0]);
      assert forall p :: p in acc1.puts ==> acc1.puts[p] == h;
      InputsFoldPutsName(txo, mine, h, acc1, ins[1..]);
      assert InputsFold(txo, mine, h, acc, ins) == InputsFold(txo, mine, h, acc1, ins[1..]);
    }
  }

  /** Store the inputs phase: `txi[h]` (dropped when empty), the placeholders and the spender set. */
  function ApplyInputs(l: Ledger, h: Hash, d: InputsDelta): Ledger {
    l.(txi := if d.spent == map[] then l.txi - {h} else l.txi[h := d.spent],
       pruned := l.pruned + d.puts,
       prunedValues := if d.puts == map[] then l.prunedValues else l.prunedValues + {h},
       cache := l.cache - d.invalidated)
  }

  // ---------------------------------------------------------------------------
  // add_transaction, outputs phase.
  // ---------------------------------------------------------------------------

  /** The received lists `txo[h]` built from the outputs paying owned addresses, in output order. */
  function TxoOf(mine: set<Addr>, outs: seq<TxOut>, isCb: bool): (d: AddrLists<TxoEntry>)
    ensures forall a :: a in d ==> a in mine && d[a] != []
    ensures forall a, j :: a in d && 0 <= j < |d[a]| ==>
              d[a][j].n < |outs| && d[a][j].isCoinbase == isCb
              && outs[d[a][j].n] == TxOut(PayTo(a), d[a][j].value)
    ensures forall k :: 0 <= k < |outs| && IsMineDest(mine, outs[k].dest) ==>
              outs[k].dest.addr in d && TxoEntry(k, outs[k].value, isCb) in d[outs[k].dest.addr]
    decreases |outs|
  {
    if |outs| == 0 then map[]
    else
      var d := TxoOf(mine, outs[..|outs| - 1], isCb);
      TxoStepEntries(mine, outs, outs[..|outs| - 1], isCb, d);
      TxoStepComplete(mine, outs, outs[..|outs| - 1], isCb, d);
      TxoStep(mine, outs, isCb, d)
  }

  /** The last output of `outs` added to the received lists `d` of the ones before it. */
  function TxoStep(mine: set<Addr>, outs: seq<TxOut>, isCb: bool, d: AddrLists<TxoEntry>): AddrLists<TxoEntry>
    requires |outs| > 0
  {
    var o := outs[|outs| - 1];
    if IsMineDest(mine, o.dest) then AppendTo(d, o.dest.addr, TxoEntry(|outs| - 1, o.value, isCb)) else d
  }

  lemma TxoStepEntries(mine: set<Addr>, outs: seq<TxOut>, init: seq<TxOut>, isCb: bool, d: AddrLists<TxoEntry>)
    requires |outs| > 0 && init == outs[..|outs| - 1]
    requires forall a :: a in d ==> a in mine && d[a] != []
    requires forall a, j :: a in d && 0 <= j < |d[a]| ==>
               d[a][j].n < |init| && d[a][j].isCoinbase == isCb
               && init[d[a][j].n] == TxOut(PayTo(a), d[a][j].value)
    ensures var r := TxoStep(mine, outs, isCb, d);
            && (forall a :: a in r ==> a in mine && r[a] != [])
            && (forall a, j :: a in r && 0 <= j < |r[a]| ==>
                  r[a][j].n < |outs| && r[a][j].isCoinbase == isCb
                  && outs[r[a][j].n] == TxOut(PayTo(a), r[a][j].value))
  {
    var o := outs[|outs| - 1];
    var r: AddrLists<TxoEntry> := TxoStep(mine, outs, isCb, d);
    forall a: Addr, j: int | a in r && 0 <= j < |r[a]|
      ensures r[a][j].n < |outs| && r[a][j].isCoinbase == isCb && outs[r[a][j].n] == TxOut(PayTo(a), r[a][j].value)
    {
      if a in d && j < |d[a]| {
        assert r[a][j] == d[a][j];
        assert init[d[a][j].n] == outs[d[a][j].n];
      } else {
        assert IsMineDest(mine, o.dest) && a == o.dest.addr;
        assert r[a][j] == TxoEntry(|outs| - 1, o.value, isCb);
      }
    }
  }

  lemma TxoStepComplete(mine: set<Addr>, outs: seq<TxOut>, init: seq<TxOut>, isCb: bool, d: AddrLists<TxoEntry>)
    requires |outs| > 0 && init == outs[..|outs| - 1]
    requires forall k :: 0 <= k < |init| && IsMineDest(mine, init[k].dest) ==>
               init[k].dest.addr in d && TxoEntry(k, init[k].value, isCb) in d[init[k].dest.addr]
    ensures var r := TxoStep(mine, outs, isCb, d);
            forall k :: 0 <= k < |outs| && IsMineDest(mine, outs[k].dest) ==>
              outs[k].dest.addr in r && TxoEntry(k, outs[k].value, isCb) in r[outs[k].dest.addr]
  {
    var r: AddrLists<TxoEntry> := TxoStep(mine, outs, isCb, d);
    forall k | 0 <= k < |outs| && IsMineDest(mine, outs[k].dest)
      ensures outs[k].dest.addr in r && TxoEntry(k, outs[k].value, isCb) in r[outs[k].dest.addr]
    {
      if k < |outs| - 1 {
        assert init[k] == outs[k];
      }
    }
  }

  /**
   * One output `k` of `h`: invalidate its address's cache entry when it is owned, pop any
   * placeholder "h:k", and when owned hand the coin to the spender recorded there. The pop
   * is the one written (`intended` false) or the intended one.
   */
  function ResolveOutputBy(l: Ledger, mine: set<Addr>, h: Hash, k: nat, o: TxOut, intended: bool): Ledger {
    var ser := Outpoint(h, k);
    var mineOut := IsMineDest(mine, o.dest);
    var l1 := if mineOut then l.(cache := l.cache - {o.dest.addr}) else l;
    if ser in l1.pruned then
      var next := l1.pruned[ser];
      var l2 := if intended then PopPlaceholder(l1, ser) else PopPlaceholderAsWritten(l1, ser);
      if mineOut then l2.(txi := AddToTxi(l2.txi, next, o.dest.addr, ser, o.value)) else l2
    else l1
  }

  /** Resolution of one output as add_transaction is written. */
  function ResolveOutput(l: Ledger, mine: set<Addr>, h: Hash, k: nat, o: TxOut): Ledger {
    ResolveOutputBy(l, mine, h, k, o, false)
  }

  /** Every transaction some placeholder names is listed in `pruned_txo_values`. */
  predicate PendingFlagged(l: Ledger) {
    forall p :: p in l.pruned ==> l.pruned[p] in l.prunedValues
  }

  /**
   * pop_pruned_txo as written: the placeholder goes, and its spender leaves
   * `pruned_txo_values` even when another placeholder still names it.
   */
  function PopPlaceholderAsWritten(l: Ledger, ser: Outpoint): (r: Ledger)
    requires ser in l.pruned
    ensures r == l.(pruned := l.pruned - {ser}, prunedValues := r.prunedValues)
    ensures l.pruned[ser] != "" ==> r.prunedValues == l.prunedValues - {l.pruned[ser]}
    ensures l.pruned[ser] == "" ==> r.prunedValues == l.prunedValues
  {
    var next := l.pruned[ser];
    l.(pruned := l.pruned - {ser},
       prunedValues := if next != "" then l.prunedValues - {next} else l.prunedValues)
  }

  /**
   * pop_pruned_txo as intended (`pruned_txo_values` is the set of `pruned_txo`'s values, as
   * the wallet builds it on load): the spender leaves the set only when no other
   * placeholder names it.
   */
  function PopPlaceholder(l: Ledger, ser: Outpoint): (r: Ledger)
    requires ser in l.pruned
    ensures r == l.(pruned := l.pruned - {ser}, prunedValues := r.prunedValues)
    ensures r.prunedValues <= l.prunedValues && l.prunedValues - r.prunedValues <= {l.pruned[ser]}
    ensures l.pruned[ser] != "" && l.pruned[ser] !in r.pruned.Values ==> l.pruned[ser] !in r.prunedValues
    ensures PendingFlagged(l) ==> PendingFlagged(r)
  {
    var next := l.pruned[ser];
    var rest := l.pruned - {ser};
    l.(pruned := rest,
       prunedValues := if next != "" && next !in rest.Values then l.prunedValues - {next} else l.prunedValues)
  }

  /**
   * As written, resolving one of two placeholders a spender waits on clears its flag while
   * the other is still pending, so get_tx_delta would report a delta for it.
   */
  lemma PopAsWrittenLosesPendingFlag(l: Ledger, f: Hash, g: Hash, s: Hash)
    requires f != g && s != ""
    requires l.pruned == map[Outpoint(f, 0) := s, Outpoint(g, 0) := s] && l.prunedValues == {s}
    ensures PendingFlagged(l)
    ensures var r := PopPlaceholderAsWritten(l, Outpoint(f, 0));
            Outpoint(g, 0) in r.pruned && r.pruned[Outpoint(g, 0)] == s && s !in r.prunedValues && !PendingFlagged(r)
    ensures var r := PopPlaceholder(l, Outpoint(f, 0));
            Outpoint(g, 0) in r.pruned && s in r.prunedValues && PendingFlagged(r)
  {
    var rest := l.pruned - {Outpoint(f, 0)};
    assert Outpoint(g, 0) in rest && rest[Outpoint(g, 0)] == s;
  }

  function ResolveFrom(l: Ledger, mine: set<Addr>, h: Hash, outs: seq<TxOut>, k: nat): Ledger
    decreases |outs| - k
  {
    if k >= |outs| then l
    else ResolveFrom(ResolveOutput(l, mine, h, k, outs[k]), mine, h, outs, k + 1)
  }

  /**
   * Placeholder resolution removes exactly the placeholders of outputs `k..` of `h`, leaves
   * `txo` alone, drops the cache entry of every owned output address and never leaves an
   * empty per-transaction dictionary in `txi`.
   */
  lemma ResolveFromMeaning(l: Ledger, mine: set<Addr>, h: Hash, outs: seq<TxOut>, k: nat)
    ensures var r := ResolveFrom(l, mine, h, outs, k);
      && r.txo == l.txo
      && (forall p :: p in r.pruned <==> p in l.pruned && !(p.hash == h && k <= p.n < |outs|))
      && (forall p :: p in r.pruned ==> r.pruned[p] == l.pruned[p])
      && r.cache.Keys <= l.cache.Keys
      && (forall a :: a in r.cache ==> r.cache[a] == l.cache[a])
      && (forall j :: k <= j < |outs| && IsMineDest(mine, outs[j].dest) ==> outs[j].dest.addr !in r.cache)
      && ((forall t :: t in l.txi ==> l.txi[t] != map[]) ==> (forall t :: t in r.txi ==> r.txi[t] != map[]))
  {
    ResolveKeepsTxo(l, mine, h, outs, k);
    ResolvePopsOwn(l, mine, h, outs, k);
    ResolveDropsCache(l, mine, h, outs, k);
    ResolveKeepsTxiNonEmpty(l, mine, h, outs, k);
  }

  lemma {:induction false} ResolveKeepsTxo(l: Ledger, mine: set<Addr>, h: Hash, outs: seq<TxOut>, k: nat)
    ensures ResolveFrom(l, mine, h, outs, k).txo == l.txo
    decreases |outs| - k
  {
    if k < |outs| {
      ResolveKeepsTxo(ResolveOutput(l, mine, h, k, outs[k]), mine, h, outs, k + 1);
    }
  }

  lemma {:induction false} ResolvePopsOwn(l: Ledger, mine: set<Addr>, h: Hash, outs: seq<TxOut>, k: nat)
    ensures var r := ResolveFrom(l, mine, h, outs, k);
      && (forall p :: p in r.pruned <==> p in l.pruned && !(p.hash == h && k <= p.n < |outs|))
      && (forall p :: p in r.pruned ==> r.pruned[p] == l.pruned[p])
    decreases |outs| - k
  {
    if k < |outs| {
      ResolvePopsOwn(ResolveOutput(l, mine, h, k, outs[k]), mine, h, outs, k + 1);
    }
  }

  lemma {:induction false} ResolveDropsCache(l: Ledger, mine: set<Addr>, h: Hash, outs: seq<TxOut>, k: nat)
    ensures var r := ResolveFrom(l, mine, h, outs, k);
      && r.cache.Keys <= l.cache.Keys
      && (forall a :: a in r.cache ==> r.cache[a] == l.cache[a])
      && (forall j :: k <= j < |outs| && IsMineDest(mine, outs[j].dest) ==> outs[j].dest.addr !in r.cache)
    decreases |outs| - k
  {
    if k < |outs| {
      ResolveDropsCache(ResolveOutput(l, mine, h, k, outs[k]), mine, h, outs, k + 1);
    }
  }

  lemma {:induction false} ResolveKeepsTxiNonEmpty(l: Ledger, mine: set<Addr>, h: Hash, outs: seq<TxOut>, k: nat)
    ensures (forall t :: t in l.txi ==> l.txi[t] != map[]) ==>
            (forall t :: t in ResolveFrom(l, mine, h, outs, k).txi ==> ResolveFrom(l, mine, h, outs, k).txi[t] != map[])
    decreases |outs| - k
  {
    if k < |outs| {
      ResolveKeepsTxiNonEmpty(ResolveOutput(l, mine, h, k, outs[k]), mine, h, outs, k + 1);
    }
  }

  /** The spenders named by the placeholders on outputs `k..` of `h`. */
  ghost function PoppedNames(pruned: map<Outpoint, Hash>, h: Hash, n: nat, k: nat): set<Hash> {
    set p | p in pruned && p.hash == h && k <= p.n < n && pruned[p] != "" :: pruned[p]
  }

  /**
   * As written, resolution unflags every spender that a popped placeholder names, whether
   * or not another placeholder still names it, and leaves every other flag alone.
   */
  lemma {:induction false} ResolveFromFlags(l: Ledger, mine: set<Addr>, h: Hash, outs: seq<TxOut>, k: nat)
    ensures ResolveFrom(l, mine, h, outs, k).prunedValues == l.prunedValues - PoppedNames(l.pruned, h, |outs|, k)
    decreases |outs| - k
  {
    if k < |outs| {
      var ser := Outpoint(h, k);
      var l1 := ResolveOutput(l, mine, h, k, outs[k]);
      ResolveFromFlags(l1, mine, h, outs, k + 1);
      var later := PoppedNames(l1.pruned, h, |outs|, k + 1);
      if ser in l.pruned {
        assert l1.pruned == l.pruned - {ser};
        assert later == PoppedNames(l.pruned, h, |outs|, k + 1);
        if l.pruned[ser] != "" {
          assert l1.prunedValues == l.prunedValues - {l.pruned[ser]};
          assert PoppedNames(l.pruned, h, |outs|, k) == {l.pruned[ser]} + later;
        } else {
          assert l1.prunedValues == l.prunedValues;
          assert PoppedNames(l.pruned, h, |outs|, k) == later;
        }
      } else {
        assert l1.pruned == l.pruned && l1.prunedValues == l.prunedValues;
        assert PoppedNames(l.pruned, h, |outs|, k) == later;
      }
    }
  }

  /** Placeholder resolution with the intended pop. */
  function ResolveFromIntended(l: Ledger, mine: set<Addr>, h: Hash, outs: seq<TxOut>, k: nat): Ledger
    decreases |outs| - k
  {
    if k >= |outs| then l
    else ResolveFromIntended(ResolveOutputBy(l, mine, h, k, outs[k], true), mine, h, outs, k + 1)
  }

  /**
   * Started from ledgers that differ only in flags, with the written one's flags a subset,
   * the two resolutions still differ only in flags, the written one's still a subset.
   */
  lemma {:induction false} ResolveIntendedAgrees(l: Ledger, li: Ledger, mine: set<Addr>, h: Hash, outs: seq<TxOut>, k: nat)
    requires li == l.(prunedValues := li.prunedValues) && l.prunedValues <= li.prunedValues
    ensures var r := ResolveFrom(l, mine, h, outs, k);
            var ri := ResolveFromIntended(li, mine, h, outs, k);
            ri == r.(prunedValues := ri.prunedValues) && r.prunedValues <= ri.prunedValues
    decreases |outs| - k
  {
    if k < |outs| {
      var l1 := ResolveOutput(l, mine, h, k, outs[k]);
      var li1 := ResolveOutputBy(li, mine, h, k, outs[k], true);
      assert li1 == l1.(prunedValues := li1.prunedValues) && l1.prunedValues <= li1.prunedValues;
      ResolveIntendedAgrees(l1, li1, mine, h, outs, k + 1);
    }
  }

  lemma {:induction false} ResolveFromIntendedKeepsFlagged(l: Ledger, mine: set<Addr>, h: Hash, outs: seq<TxOut>, k: nat)
    requires PendingFlagged(l)
    ensures PendingFlagged(ResolveFromIntended(l, mine, h, outs, k))
    decreases |outs| - k
  {
    if k < |outs| {
      var l1 := ResolveOutputBy(l, mine, h, k, outs[k], true);
      assert PendingFlagged(l1);
      ResolveFromIntendedKeepsFlagged(l1, mine, h, outs, k + 1);
    }
  }

  /**
   * add_transaction (ledger part): a transaction with no inputs is ignored; otherwise the
   * inputs phase, then `txo[h]`, then placeholder resolution for each output.
   */
  ghost function AddTransaction(l: Ledger, mine: set<Addr>, h: Hash, tx: Transaction): (r: Ledger)
    ensures |tx.inputs| == 0 ==> r == l
  {
    if |tx.inputs| == 0 then l
    else ResolveFrom(StoreOutputs(AddInputsPhase(l, mine, h, tx), mine, h, tx), mine, h, tx.outputs, 0)
  }

  /** add_transaction with the intended placeholder pop. */
  ghost function AddTransactionIntended(l: Ledger, mine: set<Addr>, h: Hash, tx: Transaction): (r: Ledger)
    ensures |tx.inputs| == 0 ==> r == l
  {
    if |tx.inputs| == 0 then l
    else ResolveFromIntended(StoreOutputs(AddInputsPhase(l, mine, h, tx), mine, h, tx), mine, h, tx.outputs, 0)
  }

  /**
   * The written and the intended add_transaction differ only in `pruned_txo_values`, and the
   * written one only ever drops more flags.
   */
  lemma AddTransactionIntendedAgrees(l: Ledger, mine: set<Addr>, h: Hash, tx: Transaction)
    ensures var r := AddTransaction(l, mine, h, tx);
            var ri := AddTransactionIntended(l, mine, h, tx);
            ri == r.(prunedValues := ri.prunedValues) && r.prunedValues <= ri.prunedValues
  {
    if |tx.inputs| > 0 {
      var l2 := StoreOutputs(AddInputsPhase(l, mine, h, tx), mine, h, tx);
      ResolveIntendedAgrees(l2, l2, mine, h, tx.outputs, 0);
    }
  }

  /**
   * As written, add_transaction unflags every spender named by a placeholder on one of its
   * outputs: the flags are those after the inputs phase minus those names.
   */
  lemma AddTransactionFlags(l: Ledger, mine: set<Addr>, h: Hash, tx: Transaction)
    requires |tx.inputs| > 0
    ensures var l1 := AddInputsPhase(l, mine, h, tx);
            AddTransaction(l, mine, h, tx).prunedValues == l1.prunedValues - PoppedNames(l1.pruned, h, |tx.outputs|, 0)
  {
    var l2 := StoreOutputs(AddInputsPhase(l, mine, h, tx), mine, h, tx);
    ResolveFromFlags(l2, mine, h, tx.outputs, 0);
  }

  /** The inputs phase of add_transaction on a transaction with at least one input. */
  ghost function AddInputsPhase(l: Ledger, mine: set<Addr>, h: Hash, tx: Transaction): Ledger {
    ApplyInputs(l, h, InputsFold(l.txo, mine, h, NoDelta, tx.inputs))
  }

  /** `txo[h]` rebuilt from the outputs, and dropped when no output is owned. */
  function StoreOutputs(l: Ledger, mine: set<Addr>, h: Hash, tx: Transaction): Ledger
    requires |tx.inputs| > 0
  {
    var d := TxoOf(mine, tx.outputs, tx.inputs[0].kind == Coinbase);
    l.(txo := if d == map[] then l.txo - {h} else l.txo[h := d])
  }

  /** Dropping `h` again after storing its outputs gives back a `txo` that did not hold it. */
  lemma StoreOutputsDropped(l: Ledger, mine: set<Addr>, h: Hash, tx: Transaction)
    requires |tx.inputs| > 0 && h !in l.txo
    ensures StoreOutputs(l, mine, h, tx).txo - {h} == l.txo
  {
  }

  /** What add_transaction does to `txo`, the placeholders of its own outputs and the cache. */
  lemma AddTransactionEffects(l: Ledger, mine: set<Addr>, h: Hash, tx: Transaction)
    requires |tx.inputs| > 0
    ensures var r := AddTransaction(l, mine, h, tx);
      && (var d := TxoOf(mine, tx.outputs, tx.inputs[0].kind == Coinbase);
          && (h in r.txo <==> d != map[])
          && (h in r.txo ==> r.txo[h] == d))
      && (forall t :: t != h ==> (t in r.txo <==> t in l.txo))
      && (forall t :: t in r.txo && t != h ==> r.txo[t] == l.txo[t])
      && (forall j :: 0 <= j < |tx.outputs| ==> Outpoint(h, j) !in r.pruned)
      && (forall j :: 0 <= j < |tx.outputs| && IsMineDest(mine, tx.outputs[j].dest) ==>
            tx.outputs[j].dest.addr !in r.cache)
      && r.cache.Keys <= l.cache.Keys
  {
    var l1 := AddInputsPhase(l, mine, h, tx);
    var l2 := StoreOutputs(l1, mine, h, tx);
    assert l1.txo == l.txo;
    ResolveFromMeaning(l2, mine, h, tx.outputs, 0);
  }

  /** add_transaction never leaves an empty per-transaction dictionary behind. */
  lemma AddTransactionKeepsNoEmptyDicts(l: Ledger, mine: set<Addr>, h: Hash, tx: Transaction)
    requires NoEmptyDicts(l)
    ensures NoEmptyDicts(AddTransaction(l, mine, h, tx))
  {
    if |tx.inputs| > 0 {
      var l1 := AddInputsPhase(l, mine, h, tx);
      assert NoEmptyDicts(l1);
      var l2 := StoreOutputs(l1, mine, h, tx);
      assert NoEmptyDicts(l2);
      ResolveFromMeaning(l2, mine, h, tx.outputs, 0);
    }
  }

  /**
   * With placeholder popping as intended, add_transaction keeps every transaction that a
   * placeholder names flagged in `pruned_txo_values`.
   */
  lemma AddTransactionIntendedKeepsFlagged(l: Ledger, mine: set<Addr>, h: Hash, tx: Transaction)
    requires PendingFlagged(l)
    ensures PendingFlagged(AddTransactionIntended(l, mine, h, tx))
  {
    if |tx.inputs| > 0 {
      InputsFoldPutsName(l.txo, mine, h, NoDelta, tx.inputs);
      var d := InputsFold(l.txo, mine, h, NoDelta, tx.inputs);
      var l1 := AddInputsPhase(l, mine, h, tx);
      assert l1 == ApplyInputs(l, h, d);
      forall p | p in l1.pruned ensures l1.pruned[p] in l1.prunedValues {
        if p in d.puts {
          assert d.puts[p] == h;
          assert l1.pruned[p] == h && h in l1.prunedValues;
        }
      }
      var l2 := StoreOutputs(l1, mine, h, tx);
      ResolveFromIntendedKeepsFlagged(l2, mine, h, tx.outputs, 0);
    }
  }

  // ---------------------------------------------------------------------------
  // remove_transaction
  // ---------------------------------------------------------------------------

  /** A spend list with every entry consuming an output of `h` removed, order kept. */
  function DropSpendsOf(s: seq<TxiEntry>, h: Hash): (r: seq<TxiEntry>)
    ensures forall e :: e in r <==> e in s && e.prevout.hash != h
    ensures |r| <= |s|
  {
    if |s| == 0 then []
    else (if s[0].prevout.hash == h then [] else [s[0]]) + DropSpendsOf(s[1..], h)
  }

  /** The per-address lists of one spender after the sweep; lists that become empty are dropped. */
  function DropDictSpendsOf(d: AddrLists<TxiEntry>, h: Hash): (r: AddrLists<TxiEntry>)
    ensures forall a :: a in r ==> a in d && r[a] != []
    ensures forall a :: a in r ==> forall e :: e in r[a] <==> e in d[a] && e.prevout.hash != h
  {
    map a | a in d && DropSpendsOf(d[a], h) != [] :: DropSpendsOf(d[a], h)
  }

  /** Transaction `t` is recorded in `txi` as spending `p`. */
  ghost predicate Spends(txi: map<Hash, AddrLists<TxiEntry>>, t: Hash, p: Outpoint) {
    t in txi && exists a, e :: a in txi[t] && e in txi[t][a] && e.prevout == p
  }

  /** The output references of `h` that some recorded spend consumes. */
  ghost function MovedKeys(txi: map<Hash, AddrLists<TxiEntry>>, h: Hash): set<Outpoint> {
    set t, a, e | t in txi && a in txi[t] && e in txi[t][a] && e.prevout.hash == h :: e.prevout
  }

  /** The transactions recorded as spending some output of `h`. */
  ghost function SpendersOf(txi: map<Hash, AddrLists<TxiEntry>>, h: Hash): set<Hash> {
    set t, a, e | t in txi && a in txi[t] && e in txi[t][a] && e.prevout.hash == h :: t
  }

  /** The addresses holding some recorded spend of an output of `h`. */
  ghost function TouchedAddrs(txi: map<Hash, AddrLists<TxiEntry>>, h: Hash): set<Addr> {
    set t, a, e | t in txi && a in txi[t] && e in txi[t][a] && e.prevout.hash == h :: a
  }

  /**
   * The spender whose entry survives for `p` when the sweep re-files spends as placeholders.
   * The source keeps the last one in dictionary order; the model picks one of them.
   */
  ghost function PickSpender(txi: map<Hash, AddrLists<TxiEntry>>, p: Outpoint): (t: Hash)
    requires exists t :: Spends(txi, t, p)
    ensures Spends(txi, t, p)
  {
    var t :| Spends(txi, t, p); t
  }

  lemma MovedKeyHasSpender(txi: map<Hash, AddrLists<TxiEntry>>, h: Hash, p: Outpoint)
    requires p in MovedKeys(txi, h)
    ensures exists t :: Spends(txi, t, p)
  {
    var t, a, e :| t in txi && a in txi[t] && e in txi[t][a] && e.prevout.hash == h && e.prevout == p;
    assert Spends(txi, t, p);
  }

  /**
   * remove_transaction (ledger part): forget the placeholders `h` was waiting on, turn
   * every recorded spend of an output of `h` back into a placeholder under its spender,
   * and drop `txi[h]` and `txo[h]`, invalidating the cache of every address touched.
   */
  ghost function RemoveTransaction(l: Ledger, h: Hash): (r: Ledger)
    ensures h !in r.txi && h !in r.txo
    ensures r.txo == l.txo - {h}
    ensures forall p :: p in r.pruned && r.pruned[p] == h ==> p.hash == h && Spends(l.txi, h, p)
    ensures forall p :: p in l.pruned && l.pruned[p] != h && p.hash != h ==>
              p in r.pruned && r.pruned[p] == l.pruned[p]
    ensures forall p :: p in r.pruned ==> p in l.pruned || p.hash == h
    ensures forall t, a, e :: t in l.txi && a in l.txi[t] && e in l.txi[t][a] && e.prevout.hash == h ==>
              && e.prevout in r.pruned && Spends(l.txi, r.pruned[e.prevout], e.prevout)
              && t in r.prunedValues && a !in r.cache
    ensures forall t :: t in r.txi <==> t in l.txi && t != h
    ensures forall t, a :: t in r.txi && a in r.txi[t] ==>
              a in l.txi[t] && r.txi[t][a] != [] &&
              forall e :: e in r.txi[t][a] <==> e in l.txi[t][a] && e.prevout.hash != h
    ensures h in l.txo ==> forall a :: a in l.txo[h] ==> a !in r.cache
    ensures r.cache.Keys <= l.cache.Keys
  {
    SweepCovers(l.txi, h);
    Ledger(
      txi := SweptTxi(l.txi, h),
      txo := l.txo - {h},
      pruned := RepointedPruned(l.pruned, l.txi, h),
      prunedValues := (if exists p :: p in l.pruned && l.pruned[p] == h then l.prunedValues - {h} else l.prunedValues)
                      + SpendersOf(l.txi, h),
      cache := l.cache - TouchedAddrs(l.txi, h) - (if h in l.txo then l.txo[h].Keys else {}))
  }

  /** The spends dictionaries once every spend of an output of `h` is taken out, `txi[h]` dropped. */
  function SweptTxi(txi: map<Hash, AddrLists<TxiEntry>>, h: Hash): (r: map<Hash, AddrLists<TxiEntry>>)
    ensures forall t :: t in r <==> t in txi && t != h
    ensures forall t, a :: t in r && a in r[t] ==>
              a in txi[t] && r[t][a] != [] &&
              forall e :: e in r[t][a] <==> e in txi[t][a] && e.prevout.hash != h
  {
    map t | t in txi && t != h :: DropDictSpendsOf(txi[t], h)
  }

  /**
   * The placeholders after removing `h`: those naming `h` are forgotten, and every recorded
   * spend of an output of `h` is parked again under one of its spenders.
   */
  ghost function RepointedPruned(pruned: map<Outpoint, Hash>, txi: map<Hash, AddrLists<TxiEntry>>, h: Hash): (r: map<Outpoint, Hash>)
    ensures forall p :: p in r && r[p] == h ==> p.hash == h && Spends(txi, h, p)
    ensures forall p :: p in pruned && pruned[p] != h && p.hash != h ==> p in r && r[p] == pruned[p]
    ensures forall p :: p in r ==> p in pruned || p.hash == h
    ensures forall p :: p in MovedKeys(txi, h) ==> p in r && Spends(txi, r[p], p)
  {
    var kept := map p | p in pruned && pruned[p] != h :: pruned[p];
    var moved := MovedKeys(txi, h);
    map p | p in kept.Keys + moved :: if p in moved then (MovedKeyHasSpender(txi, h, p); PickSpender(txi, p)) else kept[p]
  }

  /** Every recorded spend of an output of `h` lies in the moved keys, spenders and touched addresses. */
  lemma SweepCovers(txi: map<Hash, AddrLists<TxiEntry>>, h: Hash)
    ensures forall t, a, e :: t in txi && a in txi[t] && e in txi[t][a] && e.prevout.hash == h ==>
              e.prevout in MovedKeys(txi, h)
    ensures forall t, a, e :: t in txi && a in txi[t] && e in txi[t][a] && e.prevout.hash == h ==>
              t in SpendersOf(txi, h)
    ensures forall t, a, e :: t in txi && a in txi[t] && e in txi[t][a] && e.prevout.hash == h ==>
              a in TouchedAddrs(txi, h)
  {
    forall t, a, e | t in txi && a in txi[t] && e in txi[t][a] && e.prevout.hash == h
      ensures e.prevout in MovedKeys(txi, h) && t in SpendersOf(txi, h) && a in TouchedAddrs(txi, h)
    {
    }
  }

  /** remove_transaction keeps every transaction that a placeholder names flagged. */
  lemma RemoveTransactionKeepsFlagged(l: Ledger, h: Hash)
    requires PendingFlagged(l)
    ensures PendingFlagged(RemoveTransaction(l, h))
  {
    var r := RemoveTransaction(l, h);
    forall p | p in r.pruned ensures r.pruned[p] in r.prunedValues {
      if p in MovedKeys(l.txi, h) {
        MovedKeyHasSpender(l.txi, h, p);
        var t := r.pruned[p];
        assert Spends(l.txi, t, p);
        var a, e :| a in l.txi[t] && e in l.txi[t][a] && e.prevout == p;
        assert t in SpendersOf(l.txi, h);
      }
    }
  }

  /**
   * remove_transaction does not drop a spender's dictionary once the sweep has emptied it:
   * removing the only transaction a spender spent from leaves `txi[spender]` as an empty
   * dictionary, so the no-empty-dictionaries invariant holds for additions only.
   */
  lemma RemoveLeavesEmptyDict(l: Ledger, f: Hash, s: Hash, a: Addr, v: int)
    requires f != s
    requires l.txi == map[s := map[a := [TxiEntry(Outpoint(f, 0), v)]]]
    requires l.txo == map[f := map[a := [TxoEntry(0, v, false)]]]
    ensures NoEmptyDicts(l)
    ensures RemoveTransaction(l, f).txi == map[s := map[]]
    ensures !NoEmptyDicts(RemoveTransaction(l, f))
  {
    SweepEmptiesSpender(l.txi, f, s, a, v);
    assert RemoveTransaction(l, f).txi == map t | t in l.txi && t != f :: DropDictSpendsOf(l.txi[t], f);
    assert l.txi[s] != map[] by { assert a in l.txi[s]; }
    assert l.txo[f] != map[] by { assert a in l.txo[f]; }
  }

  /** The sweep of `f` empties the dictionary of a spender that spent only from `f`. */
  lemma SweepEmptiesSpender(txi: map<Hash, AddrLists<TxiEntry>>, f: Hash, s: Hash, a: Addr, v: int)
    requires f != s
    requires txi == map[s := map[a := [TxiEntry(Outpoint(f, 0), v)]]]
    ensures (map t | t in txi && t != f :: DropDictSpendsOf(txi[t], f)) == map[s := map[]]
  {
    assert DropDictSpendsOf(txi[s], f) == map[] by {
      assert DropSpendsOf([TxiEntry(Outpoint(f, 0), v)], f) == [];
    }
  }

}
