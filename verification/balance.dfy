/**
 * Balances: each received coin of an address falls in one bucket (confirmed, unconfirmed,
 * immature), a spent coin is taken back out, and results for addresses that never received a
 * coinbase coin are kept in the balance cache.
 */
module Balance {
  import opened Wrappers
  import opened TxModel
  import opened Ledger
  import opened ODict
  import opened AddrIo
  import opened Seqs

  /** The chain tip as the wallet last saw it, and the coinbase maturity (COINBASE_MATURITY). */
  datatype Chain = Chain(localHeight: int, maturity: int)

  const Zero := Balance(0, 0, 0)

  function Plus(b1: Balance, b2: Balance): Balance {
    Balance(b1.confirmed + b2.confirmed, b1.unconfirmed + b2.unconfirmed, b1.immature + b2.immature)
  }

  function Minus(b1: Balance, b2: Balance): Balance {
    Balance(b1.confirmed - b2.confirmed, b1.unconfirmed - b2.unconfirmed, b1.immature - b2.immature)
  }

  lemma MinusPlus(x: Balance, y: Balance)
    ensures Minus(Plus(x, y), x) == y
  {
  }

  function Total(b: Balance): int {
    b.confirmed + b.unconfirmed + b.immature
  }

  /** A coinbase coin is immature until `maturity` blocks have passed over its height. */
  predicate IsImmature(rc: Received, ch: Chain) {
    rc.isCoinbase && rc.height + ch.maturity > ch.localHeight
  }

  /** The three entries of a balance triple. */
  datatype Bucket = ConfirmedBucket | UnconfirmedBucket | ImmatureBucket

  function Field(b: Balance, k: Bucket): int {
    match k
    case ConfirmedBucket => b.confirmed
    case UnconfirmedBucket => b.unconfirmed
    case ImmatureBucket => b.immature
  }

  /** Where a received coin is added: immature coinbase, else confirmed above height 0, else unconfirmed. */
  function ReceiptBucket(rc: Received, ch: Chain): Bucket {
    if IsImmature(rc, ch) then ImmatureBucket else if rc.height > 0 then ConfirmedBucket else UnconfirmedBucket
  }

  /** Where a spent coin is taken out: by the height of the spending transaction, never from immature. */
  function SpendBucket(spendHeight: int): Bucket {
    if spendHeight > 0 then ConfirmedBucket else UnconfirmedBucket
  }

  /** Whether coin `k` takes part when frozen coins are (or are not) excluded. */
  predicate Counted(k: Outpoint, frozen: set<Outpoint>, exclude: bool) {
    !(exclude && k in frozen)
  }

  /**
   * What one received coin adds: its value in its bucket, minus its value again from
   * confirmed (spend height > 0) or unconfirmed (otherwise) when it has been spent.
   */
  function CoinShare(rc: Received, spendHeight: Option<int>, ch: Chain): (b: Balance)
    ensures Total(b) == if spendHeight.Some? then 0 else rc.value
    ensures b.immature == if IsImmature(rc, ch) then rc.value else 0
    ensures forall k :: Field(b, k) == (if ReceiptBucket(rc, ch) == k then rc.value else 0)
                                       - (if spendHeight.Some? && SpendBucket(spendHeight.value) == k then rc.value else 0)
  {
    var received :=
      if IsImmature(rc, ch) then Balance(0, 0, rc.value)
      else if rc.height > 0 then Balance(rc.value, 0, 0)
      else Balance(0, rc.value, 0);
    match spendHeight
    case None => received
    case Some(sh) => if sh > 0 then Minus(received, Balance(rc.value, 0, 0)) else Minus(received, Balance(0, rc.value, 0))
  }

  /** The running totals of the balance loop and whether a coinbase coin was seen. */
  datatype Tally = Tally(bal: Balance, hadCoinbase: bool)

  function SpendHeight(io: AddrIo, k: Outpoint): Option<int> {
    if k in io.sent.vals then Some(io.sent.vals[k]) else None
  }

  /** The balance loop over the received coins `ks`, in order. */
  function TallyOf(io: AddrIo, frozen: set<Outpoint>, exclude: bool, ch: Chain, ks: seq<Outpoint>): Tally
    requires forall k :: k in ks ==> k in io.received.vals
  {
    if |ks| == 0 then Tally(Zero, false)
    else
      var t := TallyOf(io, frozen, exclude, ch, ks[..|ks| - 1]);
      var k := ks[|ks| - 1];
      if !Counted(k, frozen, exclude) then t
      else
        var rc := io.received.vals[k];
        Tally(Plus(t.bal, CoinShare(rc, SpendHeight(io, k), ch)), t.hadCoinbase || rc.isCoinbase)
  }

  /** Reference: the value of the counted coins of `ks` that have not been spent. */
  function UnspentValue(io: AddrIo, frozen: set<Outpoint>, exclude: bool, ks: seq<Outpoint>): int
    requires forall k :: k in ks ==> k in io.received.vals
  {
    if |ks| == 0 then 0
    else
      var k := ks[|ks| - 1];
      UnspentValue(io, frozen, exclude, ks[..|ks| - 1])
      + (if Counted(k, frozen, exclude) && k !in io.sent.vals then io.received.vals[k].value else 0)
  }

  /** Reference: the value of the counted immature coins of `ks`, spent or not. */
  function ImmatureValue(io: AddrIo, frozen: set<Outpoint>, exclude: bool, ch: Chain, ks: seq<Outpoint>): int
    requires forall k :: k in ks ==> k in io.received.vals
  {
    if |ks| == 0 then 0
    else
      var k := ks[|ks| - 1];
      ImmatureValue(io, frozen, exclude, ch, ks[..|ks| - 1])
      + (if Counted(k, frozen, exclude) && IsImmature(io.received.vals[k], ch) then io.received.vals[k].value else 0)
  }

  /** Reference: the value of the counted coins of `ks` received into bucket `b`. */
  function ReceivedInto(io: AddrIo, frozen: set<Outpoint>, exclude: bool, ch: Chain, ks: seq<Outpoint>, b: Bucket): int
    requires forall k :: k in ks ==> k in io.received.vals
  {
    if |ks| == 0 then 0
    else
      var k := ks[|ks| - 1];
      ReceivedInto(io, frozen, exclude, ch, ks[..|ks| - 1], b)
      + (if Counted(k, frozen, exclude) && ReceiptBucket(io.received.vals[k], ch) == b then io.received.vals[k].value else 0)
  }

  /** Reference: the value of the counted coins of `ks` spent out of bucket `b`. */
  function SpentFrom(io: AddrIo, frozen: set<Outpoint>, exclude: bool, ks: seq<Outpoint>, b: Bucket): int
    requires forall k :: k in ks ==> k in io.received.vals
  {
    if |ks| == 0 then 0
    else
      var k := ks[|ks| - 1];
      SpentFrom(io, frozen, exclude, ks[..|ks| - 1], b)
      + (if Counted(k, frozen, exclude) && k in io.sent.vals && SpendBucket(io.sent.vals[k]) == b
         then io.received.vals[k].value else 0)
  }

  /** Reference: whether a counted coin of `ks` is coinbase. */
  function CoinbaseSeen(io: AddrIo, frozen: set<Outpoint>, exclude: bool, ks: seq<Outpoint>): bool
    requires forall k :: k in ks ==> k in io.received.vals
  {
    if |ks| == 0 then false
    else
      var k := ks[|ks| - 1];
      CoinbaseSeen(io, frozen, exclude, ks[..|ks| - 1]) || (Counted(k, frozen, exclude) && io.received.vals[k].isCoinbase)
  }

  lemma {:induction false} CoinbaseSeenMeaning(io: AddrIo, frozen: set<Outpoint>, exclude: bool, ks: seq<Outpoint>)
    requires forall k :: k in ks ==> k in io.received.vals
    ensures CoinbaseSeen(io, frozen, exclude, ks) <==>
              exists i :: 0 <= i < |ks| && Counted(ks[i], frozen, exclude) && io.received.vals[ks[i]].isCoinbase
  {
    if |ks| > 0 {
      var init := ks[..|ks| - 1];
      CoinbaseSeenMeaning(io, frozen, exclude, init);
      assert forall i :: 0 <= i < |init| ==> init[i] == ks[i];
    }
  }

  lemma {:induction false} TallyMeaning(io: AddrIo, frozen: set<Outpoint>, exclude: bool, ch: Chain, ks: seq<Outpoint>)
    requires forall k :: k in ks ==> k in io.received.vals
    ensures var t := TallyOf(io, frozen, exclude, ch, ks);
            && Total(t.bal) == UnspentValue(io, frozen, exclude, ks)
            && t.bal.immature == ImmatureValue(io, frozen, exclude, ch, ks)
            && t.hadCoinbase == CoinbaseSeen(io, frozen, exclude, ks)
            && forall b :: Field(t.bal, b) == ReceivedInto(io, frozen, exclude, ch, ks, b) - SpentFrom(io, frozen, exclude, ks, b)
  {
    if |ks| > 0 {
      TallyMeaning(io, frozen, exclude, ch, ks[..|ks| - 1]);
    }
    TallyBuckets(io, frozen, exclude, ch, ks);
  }

  /** Each entry of the tally is what its bucket received less what was spent out of it. */
  lemma {:induction false} TallyBuckets(io: AddrIo, frozen: set<Outpoint>, exclude: bool, ch: Chain, ks: seq<Outpoint>)
    requires forall k :: k in ks ==> k in io.received.vals
    ensures forall b :: Field(TallyOf(io, frozen, exclude, ch, ks).bal, b)
                     == ReceivedInto(io, frozen, exclude, ch, ks, b) - SpentFrom(io, frozen, exclude, ks, b)
  {
    if |ks| > 0 {
      var init := ks[..|ks| - 1];
      var k := ks[|ks| - 1];
      TallyBuckets(io, frozen, exclude, ch, init);
      var t := TallyOf(io, frozen, exclude, ch, init);
      forall b ensures Field(TallyOf(io, frozen, exclude, ch, ks).bal, b)
                    == ReceivedInto(io, frozen, exclude, ch, ks, b) - SpentFrom(io, frozen, exclude, ks, b) {
        if Counted(k, frozen, exclude) {
          var share := CoinShare(io.received.vals[k], SpendHeight(io, k), ch);
          assert TallyOf(io, frozen, exclude, ch, ks).bal == Plus(t.bal, share);
          assert Field(Plus(t.bal, share), b) == Field(t.bal, b) + Field(share, b);
        }
      }
    }
  }

  /** The balance loop over two counted coins adds their two shares. */
  lemma TallyOfTwo(io: AddrIo, a: Outpoint, b: Outpoint, ch: Chain)
    requires a in io.received.vals && b in io.received.vals
    ensures TallyOf(io, {}, false, ch, [a, b]).bal
            == Plus(CoinShare(io.received.vals[a], SpendHeight(io, a), ch), CoinShare(io.received.vals[b], SpendHeight(io, b), ch))
  {
    var ks := [a, b];
    var one := [a];
    assert ks[..|ks| - 1] == one;
    assert one[..|one| - 1] == [] && one[|one| - 1] == a;
    assert Counted(a, {}, false) && Counted(b, {}, false);
    assert TallyOf(io, {}, false, ch, []) == Tally(Zero, false);
    assert TallyOf(io, {}, false, ch, one).bal == Plus(Zero, CoinShare(io.received.vals[a], SpendHeight(io, a), ch));
  }

  /**
   * A confirmed coin of 100000 spent by a transaction still in the mempool that pays 40000 of
   * change back to the same address: the spent coin leaves the unconfirmed bucket (the bucket
   * of its spend height) rather than the confirmed one it was added to, giving
   * (100000, -60000, 0), which totals the 40000 left.
   */
  lemma MempoolSpendOfConfirmedCoin(io: AddrIo, f: Outpoint, c: Outpoint, ch: Chain)
    requires f != c
    requires io.received.keys == [f, c]
    requires f in io.received.vals && io.received.vals[f] == Received(10, 100000, false)
    requires c in io.received.vals && io.received.vals[c] == Received(0, 40000, false)
    requires f in io.sent.vals && io.sent.vals[f] == 0 && c !in io.sent.vals
    ensures TallyOf(io, {}, false, ch, io.received.keys).bal == Balance(100000, -60000, 0)
  {
    TallyOfTwo(io, f, c, ch);
  }

  /** The result of get_addr_balance, with the cache as the call leaves it. */
  datatype AddrBalance = AddrBalance(bal: Balance, cache: map<Addr, Balance>)

  /** `self._history.get(a, [])` */
  function HistOf(histMap: map<Addr, seq<HistItem>>, a: Addr): seq<HistItem> {
    if a in histMap then histMap[a] else []
  }

  /**
   * get_addr_balance: a cached triple is returned as is unless frozen coins are excluded, and
   * the call only ever adds the entry of `a` to the cache.
   */
  function GetAddrBalance(l: Ledger, hist: seq<HistItem>, frozen: set<Outpoint>, a: Addr, exclude: bool, ch: Chain)
    : (r: AddrBalance)
    ensures !exclude && a in l.cache ==> r == AddrBalance(l.cache[a], l.cache)
    ensures exclude ==> r.cache == l.cache
    ensures r.cache.Keys <= l.cache.Keys + {a}
    ensures forall b :: b in l.cache ==> b in r.cache && r.cache[b] == l.cache[b]
  {
    if !exclude && a in l.cache then AddrBalance(l.cache[a], l.cache)
    else
      var io := GetAddrIo(l.txi, l.txo, hist, a);
      var t := TallyOf(io, frozen, exclude, ch, io.received.keys);
      AddrBalance(t.bal, if !exclude && !t.hadCoinbase then l.cache[a := t.bal] else l.cache)
  }

  /**
   * Without a cache hit, the buckets of get_addr_balance hold the unspent value of the
   * counted coins, immature holds every counted immature coinbase coin, and the result is
   * cached only when frozen coins are not excluded and no counted coin is coinbase.
   */
  lemma GetAddrBalanceMeaning(l: Ledger, hist: seq<HistItem>, frozen: set<Outpoint>, a: Addr, exclude: bool, ch: Chain)
    requires exclude || a !in l.cache
    ensures var r := GetAddrBalance(l, hist, frozen, a, exclude, ch);
            var io := GetAddrIo(l.txi, l.txo, hist, a);
            && Total(r.bal) == UnspentValue(io, frozen, exclude, io.received.keys)
            && r.bal.immature == ImmatureValue(io, frozen, exclude, ch, io.received.keys)
            && r.cache == (if !exclude && !CoinbaseSeen(io, frozen, exclude, io.received.keys) then l.cache[a := r.bal] else l.cache)
            && forall b :: Field(r.bal, b) == ReceivedInto(io, frozen, exclude, ch, io.received.keys, b)
                                              - SpentFrom(io, frozen, exclude, io.received.keys, b)
  {
    var io := GetAddrIo(l.txi, l.txo, hist, a);
    var t := TallyOf(io, frozen, exclude, ch, io.received.keys);
    var r := GetAddrBalance(l, hist, frozen, a, exclude, ch);
    assert r == AddrBalance(t.bal, if !exclude && !t.hadCoinbase then l.cache[a := t.bal] else l.cache);
    TallyMeaning(io, frozen, exclude, ch, io.received.keys);
  }

  /** The balance of `a` computed afresh from the ledger's indexes, counting every coin. */
  function Computed(txi: map<Hash, AddrLists<TxiEntry>>, txo: map<Hash, AddrLists<TxoEntry>>,
                    histMap: map<Addr, seq<HistItem>>, a: Addr, ch: Chain): Balance {
    var io := GetAddrIo(txi, txo, HistOf(histMap, a), a);
    TallyOf(io, {}, false, ch, io.received.keys).bal
  }

  /** Every cached triple equals the freshly computed balance of its address. */
  ghost predicate CacheSound(l: Ledger, histMap: map<Addr, seq<HistItem>>, ch: Chain) {
    forall a :: a in l.cache ==> l.cache[a] == Computed(l.txi, l.txo, histMap, a, ch)
  }

  /** When no coin is left out, the frozen set plays no part. */
  lemma {:induction false} NothingLeftOut(io: AddrIo, frozen: set<Outpoint>, exclude: bool, ch: Chain, ks: seq<Outpoint>)
    requires forall k :: k in ks ==> k in io.received.vals
    requires !exclude || frozen == {}
    ensures TallyOf(io, frozen, exclude, ch, ks) == TallyOf(io, {}, false, ch, ks)
  {
    if |ks| > 0 {
      NothingLeftOut(io, frozen, exclude, ch, ks[..|ks| - 1]);
    }
  }

  /** Reference: what the frozen coins of `ks` add to the balance loop. */
  function FrozenPart(io: AddrIo, frozen: set<Outpoint>, ch: Chain, ks: seq<Outpoint>): Balance
    requires forall k :: k in ks ==> k in io.received.vals
  {
    if |ks| == 0 then Zero
    else
      var k := ks[|ks| - 1];
      Plus(FrozenPart(io, frozen, ch, ks[..|ks| - 1]),
           if k in frozen then CoinShare(io.received.vals[k], SpendHeight(io, k), ch) else Zero)
  }

  /** Counting every coin gives the balance without the frozen coins plus the frozen coins' part. */
  lemma {:induction false} TallySplit(io: AddrIo, frozen: set<Outpoint>, ch: Chain, ks: seq<Outpoint>)
    requires forall k :: k in ks ==> k in io.received.vals
    ensures TallyOf(io, {}, false, ch, ks).bal == Plus(TallyOf(io, frozen, true, ch, ks).bal, FrozenPart(io, frozen, ch, ks))
  {
    if |ks| > 0 {
      TallySplit(io, frozen, ch, ks[..|ks| - 1]);
    }
  }

  /** A sound cache answers with the fresh balance and stays sound. */
  lemma GetAddrBalanceSound(l: Ledger, histMap: map<Addr, seq<HistItem>>, frozen: set<Outpoint>, a: Addr,
                            exclude: bool, ch: Chain)
    requires CacheSound(l, histMap, ch)
    ensures var r := GetAddrBalance(l, HistOf(histMap, a), frozen, a, exclude, ch);
            && (!exclude ==> r.bal == Computed(l.txi, l.txo, histMap, a, ch))
            && CacheSound(l.(cache := r.cache), histMap, ch)
  {
    var r := GetAddrBalance(l, HistOf(histMap, a), frozen, a, exclude, ch);
    if !exclude && a !in l.cache {
      var io := GetAddrIo(l.txi, l.txo, HistOf(histMap, a), a);
      NothingLeftOut(io, frozen, false, ch, io.received.keys);
      assert r.bal == Computed(l.txi, l.txo, histMap, a, ch);
    }
  }

  // ---------------------------------------------------------------------------
  // get_balance, get_frozen_balance
  // ---------------------------------------------------------------------------

  /** The address loop of get_balance: per-address balances added up, the cache threaded through. */
  function SumBalances(l: Ledger, histMap: map<Addr, seq<HistItem>>, frozen: set<Outpoint>, dom: seq<Addr>,
                       exclude: bool, ch: Chain): (r: AddrBalance)
    ensures exclude ==> r.cache == l.cache
    decreases |dom|
  {
    if |dom| == 0 then AddrBalance(Zero, l.cache)
    else
      var first := GetAddrBalance(l, HistOf(histMap, dom[0]), frozen, dom[0], exclude, ch);
      var rest := SumBalances(l.(cache := first.cache), histMap, frozen, dom[1..], exclude, ch);
      AddrBalance(Plus(first.bal, rest.bal), rest.cache)
  }

  /** Reference: the fresh balances of the addresses of `dom`, added up. */
  function SumComputed(txi: map<Hash, AddrLists<TxiEntry>>, txo: map<Hash, AddrLists<TxoEntry>>,
                       histMap: map<Addr, seq<HistItem>>, dom: seq<Addr>, ch: Chain): Balance
    decreases |dom|
  {
    if |dom| == 0 then Zero else Plus(Computed(txi, txo, histMap, dom[0], ch), SumComputed(txi, txo, histMap, dom[1..], ch))
  }

  lemma {:induction false} SumBalancesSound(l: Ledger, histMap: map<Addr, seq<HistItem>>, frozen: set<Outpoint>,
                                            dom: seq<Addr>, ch: Chain)
    requires CacheSound(l, histMap, ch)
    ensures var r := SumBalances(l, histMap, frozen, dom, false, ch);
            r.bal == SumComputed(l.txi, l.txo, histMap, dom, ch) && CacheSound(l.(cache := r.cache), histMap, ch)
    decreases |dom|
  {
    if |dom| > 0 {
      var first := GetAddrBalance(l, HistOf(histMap, dom[0]), frozen, dom[0], false, ch);
      GetAddrBalanceSound(l, histMap, frozen, dom[0], false, ch);
      var l1 := l.(cache := first.cache);
      SumBalancesSound(l1, histMap, frozen, dom[1..], ch);
      var rest := SumBalances(l1, histMap, frozen, dom[1..], false, ch);
      assert l1.(cache := rest.cache) == l.(cache := rest.cache);
    }
  }

  /** The balance of `a` computed afresh without its frozen coins. */
  function ComputedExcluding(txi: map<Hash, AddrLists<TxiEntry>>, txo: map<Hash, AddrLists<TxoEntry>>,
                             histMap: map<Addr, seq<HistItem>>, frozen: set<Outpoint>, a: Addr, ch: Chain): Balance {
    var io := GetAddrIo(txi, txo, HistOf(histMap, a), a);
    TallyOf(io, frozen, true, ch, io.received.keys).bal
  }

  /** What the frozen coins of `a` add to its fresh balance. */
  function FrozenCoinsOf(txi: map<Hash, AddrLists<TxiEntry>>, txo: map<Hash, AddrLists<TxoEntry>>,
                         histMap: map<Addr, seq<HistItem>>, frozen: set<Outpoint>, a: Addr, ch: Chain): Balance {
    var io := GetAddrIo(txi, txo, HistOf(histMap, a), a);
    FrozenPart(io, frozen, ch, io.received.keys)
  }

  /** Reference: the balances `f` gives the addresses of `dom`, added up. */
  function SumOver(dom: seq<Addr>, f: Addr -> Balance): Balance
    decreases |dom|
  {
    if |dom| == 0 then Zero else Plus(f(dom[0]), SumOver(dom[1..], f))
  }

  /** `f` with the addresses of `s` counted as zero. */
  function Outside(f: Addr -> Balance, s: set<Addr>): Addr -> Balance {
    a => if a in s then Zero else f(a)
  }

  /** Fresh balances, per address. */
  function ComputedFn(txi: map<Hash, AddrLists<TxiEntry>>, txo: map<Hash, AddrLists<TxoEntry>>,
                      histMap: map<Addr, seq<HistItem>>, ch: Chain): Addr -> Balance {
    a => Computed(txi, txo, histMap, a, ch)
  }

  /** Fresh balances without frozen coins, per address. */
  function ExcludingFn(txi: map<Hash, AddrLists<TxiEntry>>, txo: map<Hash, AddrLists<TxoEntry>>,
                       histMap: map<Addr, seq<HistItem>>, frozen: set<Outpoint>, ch: Chain): Addr -> Balance {
    a => ComputedExcluding(txi, txo, histMap, frozen, a, ch)
  }

  /**
   * Reference for the frozen balance, per address: the whole balance of a frozen address, and
   * the part of its frozen coins for any other.
   */
  function FrozenValueFn(txi: map<Hash, AddrLists<TxiEntry>>, txo: map<Hash, AddrLists<TxoEntry>>,
                         histMap: map<Addr, seq<HistItem>>, frozen: set<Outpoint>, frozenAddrs: set<Addr>,
                         ch: Chain): Addr -> Balance {
    a => if a in frozenAddrs then Computed(txi, txo, histMap, a, ch) else FrozenCoinsOf(txi, txo, histMap, frozen, a, ch)
  }

  lemma {:induction false} SumComputedIsSumOver(txi: map<Hash, AddrLists<TxiEntry>>, txo: map<Hash, AddrLists<TxoEntry>>,
                                                histMap: map<Addr, seq<HistItem>>, dom: seq<Addr>, ch: Chain)
    ensures SumComputed(txi, txo, histMap, dom, ch) == SumOver(dom, ComputedFn(txi, txo, histMap, ch))
    decreases |dom|
  {
    if |dom| > 0 {
      SumComputedIsSumOver(txi, txo, histMap, dom[1..], ch);
    }
  }

  /** With frozen coins excluded, the address loop bypasses the cache and adds up the balances without them. */
  lemma {:induction false} SumBalancesExcluding(l: Ledger, histMap: map<Addr, seq<HistItem>>, frozen: set<Outpoint>,
                                                dom: seq<Addr>, ch: Chain)
    ensures SumBalances(l, histMap, frozen, dom, true, ch).bal == SumOver(dom, ExcludingFn(l.txi, l.txo, histMap, frozen, ch))
    decreases |dom|
  {
    if |dom| > 0 {
      var first := GetAddrBalance(l, HistOf(histMap, dom[0]), frozen, dom[0], true, ch);
      assert l.(cache := first.cache) == l;
      SumBalancesExcluding(l, histMap, frozen, dom[1..], ch);
    }
  }

  lemma {:induction false} SumOverRemove(ys: seq<Addr>, j: nat, f: Addr -> Balance)
    requires j < |ys|
    ensures SumOver(ys, f) == Plus(f(ys[j]), SumOver(ys[..j] + ys[j + 1..], f))
    decreases j
  {
    if j > 0 {
      SumOverRemove(ys[1..], j - 1, f);
      assert ys[1..][..j - 1] + ys[1..][j..] == (ys[..j] + ys[j + 1..])[1..];
    } else {
      assert ys[..0] + ys[1..] == ys[1..];
    }
  }

  lemma DistinctTail(xs: seq<Addr>)
    requires Distinct(xs) && |xs| > 0
    ensures Distinct(xs[1..]) && xs[0] !in xs[1..]
    ensures forall a :: a in xs <==> a == xs[0] || a in xs[1..]
  {
    var rest := xs[1..];
    forall i, j | 0 <= i < j < |rest| ensures rest[i] != rest[j] {
      assert rest[i] == xs[i + 1] && rest[j] == xs[j + 1];
    }
  }

  /** Removing position `j` of a distinct list leaves a distinct list of the other elements. */
  lemma DistinctRemove(ys: seq<Addr>, j: nat)
    requires Distinct(ys) && j < |ys|
    ensures Distinct(ys[..j] + ys[j + 1..])
    ensures forall a :: a in ys[..j] + ys[j + 1..] <==> a in ys && a != ys[j]
  {
    var ys1 := ys[..j] + ys[j + 1..];
    assert forall i :: 0 <= i < |ys1| ==> ys1[i] == (if i < j then ys[i] else ys[i + 1]);
    forall i, k | 0 <= i < k < |ys1| ensures ys1[i] != ys1[k] {
      var i' := if i < j then i else i + 1;
      var k' := if k < j then k else k + 1;
      assert ys1[i] == ys[i'] && ys1[k] == ys[k'] && i' < k';
    }
    forall a ensures a in ys1 <==> a in ys && a != ys[j] {
      if a in ys1 {
        var i :| 0 <= i < |ys1| && ys1[i] == a;
        var i' := if i < j then i else i + 1;
        assert ys[i'] == a && i' != j;
      }
    }
  }

  lemma {:induction false} SumOverInside(xs: seq<Addr>, f: Addr -> Balance, s: set<Addr>)
    requires forall a :: a in xs ==> a in s
    ensures SumOver(xs, Outside(f, s)) == Zero
    decreases |xs|
  {
    if |xs| > 0 {
      assert xs[0] in xs;
      assert forall a :: a in xs[1..] ==> a in xs;
      SumOverInside(xs[1..], f, s);
    }
  }

  /**
   * Summing over any distinct listing of the addresses of a distinct `xs` outside `s` gives
   * the same as summing over `xs` with the addresses of `s` counted as zero.
   */
  lemma {:induction false} SumOverPerm(xs: seq<Addr>, ys: seq<Addr>, f: Addr -> Balance, s: set<Addr>)
    requires Distinct(xs) && Distinct(ys)
    requires forall a :: a in ys <==> a in xs && a !in s
    ensures SumOver(ys, f) == SumOver(xs, Outside(f, s))
    decreases |ys|
  {
    if |ys| == 0 {
      SumOverInside(xs, f, s);
    } else {
      var y := ys[0];
      DistinctTail(ys);
      assert y in xs;
      var j :| 0 <= j < |xs| && xs[j] == y;
      SumOverRemove(xs, j, Outside(f, s));
      DistinctRemove(xs, j);
      assert Outside(f, s)(y) == f(y);
      SumOverPerm(xs[..j] + xs[j + 1..], ys[1..], f, s);
    }
  }

  /** A sum of pointwise sums is the sum of the two sums. */
  lemma {:induction false} SumOverSplit(xs: seq<Addr>, f: Addr -> Balance, g: Addr -> Balance, h: Addr -> Balance)
    requires forall a :: a in xs ==> f(a) == Plus(g(a), h(a))
    ensures SumOver(xs, f) == Plus(SumOver(xs, g), SumOver(xs, h))
    decreases |xs|
  {
    if |xs| > 0 {
      assert forall a :: a in xs[1..] ==> a in xs;
      SumOverSplit(xs[1..], f, g, h);
    }
  }

  /** An address's fresh balance is its balance without frozen coins plus its frozen coins' part. */
  lemma AddrFrozenSplit(txi: map<Hash, AddrLists<TxiEntry>>, txo: map<Hash, AddrLists<TxoEntry>>,
                        histMap: map<Addr, seq<HistItem>>, frozen: set<Outpoint>, a: Addr, ch: Chain)
    ensures Computed(txi, txo, histMap, a, ch)
         == Plus(ComputedExcluding(txi, txo, histMap, frozen, a, ch), FrozenCoinsOf(txi, txo, histMap, frozen, a, ch))
  {
    var io := GetAddrIo(txi, txo, HistOf(histMap, a), a);
    TallySplit(io, frozen, ch, io.received.keys);
  }

  /**
   * Over a distinct list of addresses, the whole balance less the balance of the non-frozen
   * addresses without frozen coins (in whatever order they are visited) is the frozen value.
   */
  lemma FrozenValueIsDifference(txi: map<Hash, AddrLists<TxiEntry>>, txo: map<Hash, AddrLists<TxoEntry>>,
                                histMap: map<Addr, seq<HistItem>>, frozen: set<Outpoint>, frozenAddrs: set<Addr>,
                                addresses: seq<Addr>, ch: Chain)
    ensures Distinct(addresses) ==>
              Minus(SumComputed(txi, txo, histMap, addresses, ch),
                    SumOver(BalanceDomain(addresses, frozenAddrs, true), ExcludingFn(txi, txo, histMap, frozen, ch)))
              == SumOver(addresses, FrozenValueFn(txi, txo, histMap, frozen, frozenAddrs, ch))
  {
    if Distinct(addresses) {
      var e := ExcludingFn(txi, txo, histMap, frozen, ch);
      var d := BalanceDomain(addresses, frozenAddrs, true);
      SumOverPerm(addresses, d, e, frozenAddrs);
      FrozenSplitSum(txi, txo, histMap, frozen, frozenAddrs, addresses, ch);
      MinusPlus(SumOver(addresses, Outside(e, frozenAddrs)), SumOver(addresses, FrozenValueFn(txi, txo, histMap, frozen, frozenAddrs, ch)));
    }
  }

  /** The whole balance is the balance outside frozen addresses without frozen coins plus the frozen value. */
  lemma FrozenSplitSum(txi: map<Hash, AddrLists<TxiEntry>>, txo: map<Hash, AddrLists<TxoEntry>>,
                       histMap: map<Addr, seq<HistItem>>, frozen: set<Outpoint>, frozenAddrs: set<Addr>,
                       addresses: seq<Addr>, ch: Chain)
    ensures SumComputed(txi, txo, histMap, addresses, ch)
         == Plus(SumOver(addresses, Outside(ExcludingFn(txi, txo, histMap, frozen, ch), frozenAddrs)),
                 SumOver(addresses, FrozenValueFn(txi, txo, histMap, frozen, frozenAddrs, ch)))
  {
    var c := ComputedFn(txi, txo, histMap, ch);
    var e := Outside(ExcludingFn(txi, txo, histMap, frozen, ch), frozenAddrs);
    var fv := FrozenValueFn(txi, txo, histMap, frozen, frozenAddrs, ch);
    forall a | a in addresses ensures c(a) == Plus(e(a), fv(a)) {
      PointwiseFrozenSplit(txi, txo, histMap, frozen, frozenAddrs, a, ch);
    }
    SumOverSplit(addresses, c, e, fv);
    SumComputedIsSumOver(txi, txo, histMap, addresses, ch);
  }

  lemma PointwiseFrozenSplit(txi: map<Hash, AddrLists<TxiEntry>>, txo: map<Hash, AddrLists<TxoEntry>>,
                             histMap: map<Addr, seq<HistItem>>, frozen: set<Outpoint>, frozenAddrs: set<Addr>,
                             a: Addr, ch: Chain)
    ensures ComputedFn(txi, txo, histMap, ch)(a)
         == Plus(Outside(ExcludingFn(txi, txo, histMap, frozen, ch), frozenAddrs)(a),
                 FrozenValueFn(txi, txo, histMap, frozen, frozenAddrs, ch)(a))
  {
    var c := ComputedFn(txi, txo, histMap, ch);
    var e := ExcludingFn(txi, txo, histMap, frozen, ch);
    var fv := FrozenValueFn(txi, txo, histMap, frozen, frozenAddrs, ch);
    if a !in frozenAddrs {
      AddrFrozenSplit(txi, txo, histMap, frozen, a, ch);
    }
    OutsidePlus(c, e, fv, frozenAddrs, a);
  }

  /** Split of `c(a)` into the part outside `s` and the rest, once both cases are known. */
  lemma OutsidePlus(c: Addr -> Balance, e: Addr -> Balance, fv: Addr -> Balance, s: set<Addr>, a: Addr)
    requires a in s ==> fv(a) == c(a)
    requires a !in s ==> c(a) == Plus(e(a), fv(a))
    ensures c(a) == Plus(Outside(e, s)(a), fv(a))
  {
  }


  /** The addresses get_balance iterates: the given list, or the set of them minus the frozen ones. */
  ghost function BalanceDomain(dom: seq<Addr>, frozenAddrs: set<Addr>, excludeAddrs: bool): (r: seq<Addr>)
    ensures excludeAddrs ==> Distinct(r) && forall a :: a in r <==> a in dom && a !in frozenAddrs
    ensures !excludeAddrs ==> r == dom
  {
    if excludeAddrs then Enumerate((set a | a in dom) - frozenAddrs) else dom
  }

  /** get_balance over `dom` (the wallet's addresses when none is given). */
  ghost function GetBalance(l: Ledger, histMap: map<Addr, seq<HistItem>>, frozenAddrs: set<Addr>, frozen: set<Outpoint>,
                            dom: seq<Addr>, excludeCoins: bool, excludeAddrs: bool, ch: Chain): (r: AddrBalance)
    ensures CacheSound(l, histMap, ch) && !excludeCoins ==>
              r.bal == SumComputed(l.txi, l.txo, histMap, BalanceDomain(dom, frozenAddrs, excludeAddrs), ch)
              && CacheSound(l.(cache := r.cache), histMap, ch)
    ensures excludeCoins ==> r.cache == l.cache
    ensures excludeCoins ==> r.bal == SumOver(BalanceDomain(dom, frozenAddrs, excludeAddrs), ExcludingFn(l.txi, l.txo, histMap, frozen, ch))
  {
    var d := BalanceDomain(dom, frozenAddrs, excludeAddrs);
    SumBalancesExcluding(l, histMap, frozen, d, ch);
    if CacheSound(l, histMap, ch) then
      SumBalancesSound(l, histMap, frozen, d, ch);
      SumBalances(l, histMap, frozen, d, excludeCoins, ch)
    else SumBalances(l, histMap, frozen, d, excludeCoins, ch)
  }

  /**
   * get_frozen_balance: with no frozen coins, the balance of the frozen addresses; otherwise the
   * whole wallet's balance minus its balance without frozen addresses and frozen coins.
   */
  ghost function GetFrozenBalance(l: Ledger, histMap: map<Addr, seq<HistItem>>, addresses: seq<Addr>,
                                  frozenAddrs: set<Addr>, frozen: set<Outpoint>, ch: Chain): (r: AddrBalance)
    ensures frozen == {} && CacheSound(l, histMap, ch) ==>
              r.bal == SumComputed(l.txi, l.txo, histMap, Enumerate(frozenAddrs), ch)
    ensures frozen != {} && CacheSound(l, histMap, ch) ==>
              r.bal == Minus(SumComputed(l.txi, l.txo, histMap, addresses, ch),
                             GetBalance(l, histMap, frozenAddrs, frozen, addresses, true, true, ch).bal)
    ensures frozen != {} && CacheSound(l, histMap, ch) && Distinct(addresses) ==>
              r.bal == SumOver(addresses, FrozenValueFn(l.txi, l.txo, histMap, frozen, frozenAddrs, ch))
  {
    FrozenValueIsDifference(l.txi, l.txo, histMap, frozen, frozenAddrs, addresses, ch);
    if frozen == {} then GetBalance(l, histMap, frozenAddrs, frozen, Enumerate(frozenAddrs), false, false, ch)
    else
      var noFrozen := GetBalance(l, histMap, frozenAddrs, frozen, addresses, true, true, ch);
      var all := GetBalance(l, histMap, frozenAddrs, frozen, addresses, false, false, ch);
      AddrBalance(Minus(all.bal, noFrozen.bal), all.cache)
  }
}
