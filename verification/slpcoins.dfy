/**
 * Token coins: the coins of an address that carry a given token (get_slp_addr_utxo), those of
 * a set of addresses (get_slp_utxos), the token balance built from them, and the check a SEND
 * must pass before it is built.
 */
module SlpCoins {
  import opened Wrappers
  import opened SlpMessage
  import opened TxModel
  import opened Ledger
  import opened ODict
  import opened AddrIo
  import opened Slp
  import opened Balance
  import opened Coins

  /** A token coin: the plain coin, its token quantity and the validity of its transaction. */
  datatype SlpCoin = SlpCoin(coin: Coin, tokenValue: Qty, validity: int)

  /** The burn modes of get_slp_addr_utxo. */
  datatype SlpFlags = SlpFlags(includeInvalid: bool, includeBaton: bool)

  const DefaultFlags := SlpFlags(false, false)

  /** The tag of coin `k` held by `a`, and the info of its transaction, when both exist. */
  predicate HasTokenInfo(s: SlpState, a: Addr, k: Outpoint) {
    SlpKey(a, k.hash, k.n) in s.slpTxo && k.hash in s.tokinfo && s.tokinfo[k.hash].Info?
  }

  /**
   * Whether get_slp_addr_utxo keeps coin `k` of `a` for token `id`. A missing tag, a missing
   * info entry or a cleared one (KeyError on `validity`) drops the coin; otherwise a coin of
   * the token is kept when valid and not the baton, when it is a valid baton and batons are
   * included, or when its validity is known and invalid coins are included.
   */
  function SlpCoinKept(s: SlpState, a: Addr, k: Outpoint, id: string, fl: SlpFlags): (keep: bool)
    ensures keep <==>
              && HasTokenInfo(s, a, k)
              && s.slpTxo[SlpKey(a, k.hash, k.n)].tokenId == Some(id)
              && (var v := s.tokinfo[k.hash].validity;
                  var q := s.slpTxo[SlpKey(a, k.hash, k.n)].qty;
                  || (v == 1 && q != MintBaton)
                  || (fl.includeBaton && q == MintBaton && v == 1)
                  || (fl.includeInvalid && v != 0))
  {
    var key := SlpKey(a, k.hash, k.n);
    if key !in s.slpTxo || k.hash !in s.tokinfo then false
    else
      var tag := s.slpTxo[key];
      var info := s.tokinfo[k.hash];
      var sameToken := tag.tokenId == Some(id);
      if info.Cleared? then false
      else if sameToken && fl.includeBaton && tag.qty == MintBaton && info.validity == 1 then true
      else if sameToken && fl.includeInvalid && info.validity != 0 then true
      else !(!sameToken || info.validity != 1 || tag.qty == MintBaton)
  }

  function TokenCoin(c: Coin, s: SlpState, a: Addr, k: Outpoint): SlpCoin
    requires HasTokenInfo(s, a, k)
  {
    SlpCoin(c, s.slpTxo[SlpKey(a, k.hash, k.n)].qty, s.tokinfo[k.hash].validity)
  }

  /** The result dictionary of get_slp_addr_utxo: each kept coin with its token quantity and validity. */
  function ToSlpCoins(a: Addr, d: ODict<Outpoint, Received>, frozen: set<Outpoint>, s: SlpState): (r: ODict<Outpoint, SlpCoin>)
    requires Valid(d)
    requires forall k :: k in d.vals ==> HasTokenInfo(s, a, k)
    ensures Valid(r) && r.keys == d.keys
    ensures forall k :: k in r.vals ==> r.vals[k].coin.address == a && r.vals[k].coin.prevout == k
  {
    var coins := ToCoins(a, d, frozen);
    ODict(d.keys, map k | k in d.vals :: TokenCoin(coins.vals[k], s, a, k))
  }

  /** The token coins of one address, and the frozen-coin set as the call leaves it. */
  datatype SlpAddrUtxo = SlpAddrUtxo(coins: Result<ODict<Outpoint, SlpCoin>, string>, frozen: set<Outpoint>)

  /**
   * get_slp_addr_utxo: the unspent coins of `a` (spent ones leave the frozen-coin set), then
   * every coin not kept for token `id` popped.
   */
  function GetSlpAddrUtxo(txi: map<Hash, AddrLists<TxiEntry>>, txo: map<Hash, AddrLists<TxoEntry>>, hist: seq<HistItem>,
                          s: SlpState, frozen: set<Outpoint>, a: Addr, id: string, fl: SlpFlags): (r: SlpAddrUtxo)
    ensures r.frozen <= frozen
    ensures r.coins.Success? ==> Valid(r.coins.value)
    ensures r.coins.Success? ==> forall k :: k in r.coins.value.vals ==> r.coins.value.vals[k].coin.address == a
  {
    var io := GetAddrIo(txi, txo, hist, a);
    var u := RemoveSpent(io.received, io.sent.keys, frozen);
    match u.coins
    case Failure(e) => SlpAddrUtxo(Failure(e), u.frozen)
    case Success(c) =>
      var toPop := set k | k in c.vals && !SlpCoinKept(s, a, k, id, fl);
      var kept := DropKeys(c, toPop);
      SlpAddrUtxo(Success(ToSlpCoins(a, kept, u.frozen, s)), u.frozen)
  }

  /**
   * What get_slp_addr_utxo reports: it fails exactly when a spent outpoint was never received;
   * otherwise it returns the unspent coins kept for the token, each with the quantity of its
   * tag and the validity of its transaction.
   */
  lemma GetSlpAddrUtxoMeaning(txi: map<Hash, AddrLists<TxiEntry>>, txo: map<Hash, AddrLists<TxoEntry>>, hist: seq<HistItem>,
                              s: SlpState, frozen: set<Outpoint>, a: Addr, id: string, fl: SlpFlags)
    ensures var io := GetAddrIo(txi, txo, hist, a);
            var r := GetSlpAddrUtxo(txi, txo, hist, s, frozen, a, id, fl);
            && (r.coins.Success? <==> io.sent.vals.Keys <= io.received.vals.Keys)
            && (r.coins.Success? ==> r.frozen == frozen - io.sent.vals.Keys)
            && (r.coins.Success? ==> forall k :: k in r.coins.value.vals <==>
                  k in io.received.vals && k !in io.sent.vals && SlpCoinKept(s, a, k, id, fl))
            && (r.coins.Success? ==> forall k :: k in r.coins.value.vals ==>
                  && r.coins.value.vals[k].coin == ReceivedCoin(io, a, k, k in r.frozen)
                  && r.coins.value.vals[k].tokenValue == s.slpTxo[SlpKey(a, k.hash, k.n)].qty
                  && r.coins.value.vals[k].validity == s.tokinfo[k.hash].validity)
  {
    var io := GetAddrIo(txi, txo, hist, a);
    SpentLoop(io, frozen);
    var u := RemoveSpent(io.received, io.sent.keys, frozen);
    if u.coins.Success? {
      var c := u.coins.value;
      KeptSlpCoins(io, c, u.frozen, s, a, id, fl);
      var toPop := set k | k in c.vals && !SlpCoinKept(s, a, k, id, fl);
      assert GetSlpAddrUtxo(txi, txo, hist, s, frozen, a, id, fl).coins.value == ToSlpCoins(a, DropKeys(c, toPop), u.frozen, s);
    }
  }

  /** The coins of `c` kept for the token, as get_slp_addr_utxo reports them. */
  lemma KeptSlpCoins(io: AddrIo, c: ODict<Outpoint, Received>, fz: set<Outpoint>, s: SlpState, a: Addr, id: string, fl: SlpFlags)
    requires Valid(c)
    requires forall k :: k in c.vals ==> k in io.received.vals && c.vals[k] == io.received.vals[k]
    ensures var r := ToSlpCoins(a, DropKeys(c, set k | k in c.vals && !SlpCoinKept(s, a, k, id, fl)), fz, s);
            && (forall k :: k in r.vals <==> k in c.vals && SlpCoinKept(s, a, k, id, fl))
            && (forall k :: k in r.vals ==>
                  && r.vals[k].coin == ReceivedCoin(io, a, k, k in fz)
                  && r.vals[k].tokenValue == s.slpTxo[SlpKey(a, k.hash, k.n)].qty
                  && r.vals[k].validity == s.tokinfo[k.hash].validity)
  {
  }

  /**
   * A coin carrying a token is never among the plain coins get_addr_utxo offers with token
   * coins excluded, so a plain payment cannot burn it.
   */
  lemma TokenCoinsNotPlain(txi: map<Hash, AddrLists<TxiEntry>>, txo: map<Hash, AddrLists<TxoEntry>>, hist: seq<HistItem>,
                           s: SlpState, frozen: set<Outpoint>, a: Addr, id: string, fl: SlpFlags, k: Outpoint)
    requires GetSlpAddrUtxo(txi, txo, hist, s, frozen, a, id, fl).coins.Success?
    requires k in GetSlpAddrUtxo(txi, txo, hist, s, frozen, a, id, fl).coins.value.vals
    ensures GetAddrUtxo(txi, txo, hist, s.slpTxo, frozen, a, true).coins.Success?
    ensures k !in GetAddrUtxo(txi, txo, hist, s.slpTxo, frozen, a, true).coins.value.vals
  {
    GetSlpAddrUtxoMeaning(txi, txo, hist, s, frozen, a, id, fl);
    GetAddrUtxoMeaning(txi, txo, hist, s.slpTxo, frozen, a, true);
    var key := SlpKey(a, k.hash, k.n);
    assert key in s.slpTxo && key.addr == a;
    assert Outpoint(key.txHash, key.n) == k;
    assert k in Tagged(s.slpTxo, a);
  }

  /**
   * Without a burn mode, every token coin returned is valid, is not the minting baton and, as
   * the classifier writes tags, carries a positive amount of the token.
   */
  lemma DefaultSlpCoinsSpendable(txi: map<Hash, AddrLists<TxiEntry>>, txo: map<Hash, AddrLists<TxoEntry>>, hist: seq<HistItem>,
                                 s: SlpState, frozen: set<Outpoint>, a: Addr, id: string, k: Outpoint)
    requires TagsWellFormed(s.slpTxo)
    requires GetSlpAddrUtxo(txi, txo, hist, s, frozen, a, id, DefaultFlags).coins.Success?
    requires k in GetSlpAddrUtxo(txi, txo, hist, s, frozen, a, id, DefaultFlags).coins.value.vals
    ensures var c := GetSlpAddrUtxo(txi, txo, hist, s, frozen, a, id, DefaultFlags).coins.value.vals[k];
            c.validity == 1 && c.tokenValue.Amount? && c.tokenValue.amount > 0
  {
    GetSlpAddrUtxoMeaning(txi, txo, hist, s, frozen, a, id, DefaultFlags);
  }

  // ---------------------------------------------------------------------------
  // get_slp_utxos
  // ---------------------------------------------------------------------------

  /** The token coins of one address that pass the filters, in the dictionary's order. */
  function SlpPick(d: ODict<Outpoint, SlpCoin>, ks: seq<Outpoint>, f: UtxoFilter, ch: Chain): (r: seq<SlpCoin>)
    requires forall k :: k in ks ==> k in d.vals
    ensures forall c :: c in r <==> exists k :: k in ks && c == d.vals[k] && Selected(c.coin, f, ch)
  {
    if |ks| == 0 then []
    else
      var rest := SlpPick(d, ks[1..], f, ch);
      assert forall k :: k in ks <==> k == ks[0] || k in ks[1..];
      if Selected(d.vals[ks[0]].coin, f, ch) then [d.vals[ks[0]]] + rest else rest
  }

  /** The token coins get_slp_utxos collects, and the frozen-coin set as it leaves it. */
  datatype SlpUtxoList = SlpUtxoList(coins: Result<seq<SlpCoin>, string>, frozen: set<Outpoint>)

  /** get_slp_utxos has no maturity filter. */
  function SlpFilter(excludeFrozen: bool, confirmedOnly: bool): UtxoFilter {
    UtxoFilter(excludeFrozen, false, confirmedOnly)
  }

  /** The address loop of get_slp_utxos; the first failing address aborts the loop. */
  function SlpUtxoFold(txi: map<Hash, AddrLists<TxiEntry>>, txo: map<Hash, AddrLists<TxoEntry>>,
                       histMap: map<Addr, seq<HistItem>>, s: SlpState, frozen: set<Outpoint>, dom: seq<Addr>,
                       id: string, fl: SlpFlags, f: UtxoFilter, ch: Chain): (r: SlpUtxoList)
    ensures r.frozen <= frozen
    ensures r.coins.Success? ==> forall c :: c in r.coins.value ==> c.coin.address in dom && Selected(c.coin, f, ch)
    decreases |dom|
  {
    if |dom| == 0 then SlpUtxoList(Success([]), frozen)
    else
      var u := GetSlpAddrUtxo(txi, txo, HistOf(histMap, dom[0]), s, frozen, dom[0], id, fl);
      match u.coins
      case Failure(e) => SlpUtxoList(Failure(e), u.frozen)
      case Success(d) =>
        var here := SlpPick(d, d.keys, f, ch);
        var rest := SlpUtxoFold(txi, txo, histMap, s, u.frozen, dom[1..], id, fl, f, ch);
        assert forall x :: x in dom[1..] ==> x in dom;
        match rest.coins
        case Failure(e) => SlpUtxoList(Failure(e), rest.frozen)
        case Success(cs) => SlpUtxoList(Success(here + cs), rest.frozen)
  }

  /** Every token coin the fold returns is kept for the token by get_slp_addr_utxo's rules. */
  lemma {:induction false} SlpUtxoFoldKept(txi: map<Hash, AddrLists<TxiEntry>>, txo: map<Hash, AddrLists<TxoEntry>>,
                                           histMap: map<Addr, seq<HistItem>>, s: SlpState, frozen: set<Outpoint>,
                                           dom: seq<Addr>, id: string, fl: SlpFlags, f: UtxoFilter, ch: Chain)
    ensures var r := SlpUtxoFold(txi, txo, histMap, s, frozen, dom, id, fl, f, ch);
            r.coins.Success? ==> forall c :: c in r.coins.value ==>
              && SlpCoinKept(s, c.coin.address, c.coin.prevout, id, fl)
              && c.tokenValue == s.slpTxo[SlpKey(c.coin.address, c.coin.prevout.hash, c.coin.prevout.n)].qty
              && c.validity == s.tokinfo[c.coin.prevout.hash].validity
    decreases |dom|
  {
    if |dom| > 0 {
      var a := dom[0];
      var u := GetSlpAddrUtxo(txi, txo, HistOf(histMap, a), s, frozen, a, id, fl);
      if u.coins.Success? {
        GetSlpAddrUtxoMeaning(txi, txo, HistOf(histMap, a), s, frozen, a, id, fl);
        SlpUtxoFoldKept(txi, txo, histMap, s, u.frozen, dom[1..], id, fl, f, ch);
      }
    }
  }

  /**
   * `c` is an unspent coin of its address kept for token `id`, reported with the value and
   * height it was received with, the quantity of its tag and the validity of its transaction.
   */
  ghost predicate TokenCoinOf(txi: map<Hash, AddrLists<TxiEntry>>, txo: map<Hash, AddrLists<TxoEntry>>,
                              histMap: map<Addr, seq<HistItem>>, s: SlpState, id: string, fl: SlpFlags, c: SlpCoin) {
    var a := c.coin.address;
    var k := c.coin.prevout;
    var io := IoOf(txi, txo, histMap, a);
    && k in io.received.vals && k !in io.sent.vals && SlpCoinKept(s, a, k, id, fl)
    && c == TokenCoin(ReceivedCoin(io, a, k, c.coin.isFrozenCoin), s, a, k)
  }

  /** The address loop of get_slp_utxos fails exactly when some address spent a coin it never received. */
  lemma {:induction false} SlpUtxoFoldFails(txi: map<Hash, AddrLists<TxiEntry>>, txo: map<Hash, AddrLists<TxoEntry>>,
                                            histMap: map<Addr, seq<HistItem>>, s: SlpState, frozen: set<Outpoint>,
                                            dom: seq<Addr>, id: string, fl: SlpFlags, f: UtxoFilter, ch: Chain)
    ensures SlpUtxoFold(txi, txo, histMap, s, frozen, dom, id, fl, f, ch).coins.Success?
        <==> forall b :: b in dom ==> SpendsReceived(IoOf(txi, txo, histMap, b))
    decreases |dom|
  {
    if |dom| > 0 {
      var u := GetSlpAddrUtxo(txi, txo, HistOf(histMap, dom[0]), s, frozen, dom[0], id, fl);
      GetSlpAddrUtxoMeaning(txi, txo, HistOf(histMap, dom[0]), s, frozen, dom[0], id, fl);
      SlpUtxoFoldFails(txi, txo, histMap, s, u.frozen, dom[1..], id, fl, f, ch);
      assert forall b :: b in dom <==> b == dom[0] || b in dom[1..];
      assert u.coins.Success? <==> SpendsReceived(IoOf(txi, txo, histMap, dom[0]));
      var r := SlpUtxoFold(txi, txo, histMap, s, frozen, dom, id, fl, f, ch);
      var rest := SlpUtxoFold(txi, txo, histMap, s, u.frozen, dom[1..], id, fl, f, ch);
      assert r.coins.Success? <==> u.coins.Success? && rest.coins.Success?;
    }
  }

  /**
   * Every token coin the address loop of get_slp_utxos returns is an unspent coin of a domain
   * address kept for the token, passing the filters, flagged frozen as the frozen-coin set says.
   */
  lemma {:induction false} SlpUtxoFoldSound(txi: map<Hash, AddrLists<TxiEntry>>, txo: map<Hash, AddrLists<TxoEntry>>,
                                            histMap: map<Addr, seq<HistItem>>, s: SlpState, frozen: set<Outpoint>,
                                            dom: seq<Addr>, id: string, fl: SlpFlags, f: UtxoFilter, ch: Chain)
    ensures SlpUtxoFold(txi, txo, histMap, s, frozen, dom, id, fl, f, ch).coins.Success? ==>
              forall c :: c in SlpUtxoFold(txi, txo, histMap, s, frozen, dom, id, fl, f, ch).coins.value ==>
                && c.coin.address in dom && Selected(c.coin, f, ch)
                && TokenCoinOf(txi, txo, histMap, s, id, fl, c)
                && FlagAsFrozen(txi, txo, histMap, frozen, dom, c.coin)
    decreases |dom|
  {
    var r := SlpUtxoFold(txi, txo, histMap, s, frozen, dom, id, fl, f, ch);
    if |dom| > 0 && r.coins.Success? {
      var a := dom[0];
      var io := IoOf(txi, txo, histMap, a);
      var u := GetSlpAddrUtxo(txi, txo, HistOf(histMap, a), s, frozen, a, id, fl);
      GetSlpAddrUtxoMeaning(txi, txo, HistOf(histMap, a), s, frozen, a, id, fl);
      var d := u.coins.value;
      var rest := SlpUtxoFold(txi, txo, histMap, s, u.frozen, dom[1..], id, fl, f, ch);
      SlpUtxoFoldSound(txi, txo, histMap, s, u.frozen, dom[1..], id, fl, f, ch);
      assert r.coins.value == SlpPick(d, d.keys, f, ch) + rest.coins.value;
      forall c | c in r.coins.value
        ensures c.coin.address in dom && Selected(c.coin, f, ch) && TokenCoinOf(txi, txo, histMap, s, id, fl, c)
                && FlagAsFrozen(txi, txo, histMap, frozen, dom, c.coin)
      {
        if c in SlpPick(d, d.keys, f, ch) {
          var k :| k in d.keys && c == d.vals[k] && Selected(c.coin, f, ch);
          assert c.coin == ReceivedCoin(io, a, k, k in u.frozen);
        } else {
          assert c in rest.coins.value;
          assert forall b :: b in dom[1..] ==> b in dom;
        }
      }
    }
  }

  /**
   * Every unspent coin of a domain address that is kept for the token and passes the filters
   * is returned, flagged frozen as the frozen-coin set says.
   */
  lemma {:induction false} SlpUtxoFoldComplete(txi: map<Hash, AddrLists<TxiEntry>>, txo: map<Hash, AddrLists<TxoEntry>>,
                                               histMap: map<Addr, seq<HistItem>>, s: SlpState, frozen: set<Outpoint>,
                                               dom: seq<Addr>, id: string, fl: SlpFlags, f: UtxoFilter, ch: Chain,
                                               a: Addr, k: Outpoint)
    requires a in dom
    requires k in frozen ==> NoneSpends(txi, txo, histMap, dom, k)
    requires var io := IoOf(txi, txo, histMap, a);
             && k in io.received.vals && k !in io.sent.vals && SlpCoinKept(s, a, k, id, fl)
             && Selected(ReceivedCoin(io, a, k, k in frozen), f, ch)
    ensures SlpUtxoFold(txi, txo, histMap, s, frozen, dom, id, fl, f, ch).coins.Success? ==>
              TokenCoin(ReceivedCoin(IoOf(txi, txo, histMap, a), a, k, k in frozen), s, a, k)
                in SlpUtxoFold(txi, txo, histMap, s, frozen, dom, id, fl, f, ch).coins.value
    decreases |dom|
  {
    var r := SlpUtxoFold(txi, txo, histMap, s, frozen, dom, id, fl, f, ch);
    var u := GetSlpAddrUtxo(txi, txo, HistOf(histMap, dom[0]), s, frozen, dom[0], id, fl);
    if r.coins.Success? {
      var d := u.coins.value;
      GetSlpAddrUtxoMeaning(txi, txo, HistOf(histMap, dom[0]), s, frozen, dom[0], id, fl);
      var rest := SlpUtxoFold(txi, txo, histMap, s, u.frozen, dom[1..], id, fl, f, ch);
      assert r.coins.value == SlpPick(d, d.keys, f, ch) + rest.coins.value;
      assert (k in u.frozen) == (k in frozen) by {
        if k in frozen {
          assert k !in IoOf(txi, txo, histMap, dom[0]).sent.vals;
        }
      }
      if dom[0] == a {
        assert k in d.vals;
        assert d.vals[k] == TokenCoin(ReceivedCoin(IoOf(txi, txo, histMap, a), a, k, k in frozen), s, a, k);
        assert d.vals[k] in SlpPick(d, d.keys, f, ch);
      } else {
        assert a in dom[1..];
        assert forall b :: b in dom[1..] ==> b in dom;
        SlpUtxoFoldComplete(txi, txo, histMap, s, u.frozen, dom[1..], id, fl, f, ch, a, k);
      }
    }
  }

  /**
   * get_slp_utxos: the token coins of the domain's addresses that pass the filters;
   * excluding frozen coins drops frozen addresses and frozen coins alike.
   */
  ghost function GetSlpUtxos(txi: map<Hash, AddrLists<TxiEntry>>, txo: map<Hash, AddrLists<TxoEntry>>,
                             histMap: map<Addr, seq<HistItem>>, s: SlpState, frozen: set<Outpoint>, frozenAddrs: set<Addr>,
                             addresses: seq<Addr>, domain: Option<seq<Addr>>, id: string, excludeFrozen: bool,
                             confirmedOnly: bool, fl: SlpFlags, ch: Chain): (r: SlpUtxoList)
    ensures r.frozen <= frozen
    ensures r.coins.Success? ==> forall c :: c in r.coins.value ==>
              && c.coin.address in domain.GetOr(addresses)
              && !(confirmedOnly && c.coin.height <= 0)
              && (excludeFrozen ==> c.coin.address !in frozenAddrs && !c.coin.isFrozenCoin)
  {
    SlpUtxoFold(txi, txo, histMap, s, frozen, UtxoDomain(domain, addresses, frozenAddrs, excludeFrozen), id, fl,
                SlpFilter(excludeFrozen, confirmedOnly), ch)
  }

  /**
   * What get_slp_utxos returns: it fails exactly when a visited address spent a coin it never
   * received; otherwise every coin is an unspent coin of a visited address kept for the token,
   * confirmed when asked, with its frozen flag.
   */
  lemma GetSlpUtxosSound(txi: map<Hash, AddrLists<TxiEntry>>, txo: map<Hash, AddrLists<TxoEntry>>,
                         histMap: map<Addr, seq<HistItem>>, s: SlpState, frozen: set<Outpoint>, frozenAddrs: set<Addr>,
                         addresses: seq<Addr>, domain: Option<seq<Addr>>, id: string, excludeFrozen: bool,
                         confirmedOnly: bool, fl: SlpFlags, ch: Chain)
    ensures var r := GetSlpUtxos(txi, txo, histMap, s, frozen, frozenAddrs, addresses, domain, id, excludeFrozen, confirmedOnly, fl, ch);
            && (r.coins.Success? <==> forall b :: Visited(domain, addresses, frozenAddrs, excludeFrozen, b) ==>
                                                  SpendsReceived(IoOf(txi, txo, histMap, b)))
            && (r.coins.Success? ==> forall c :: c in r.coins.value ==>
                  && Visited(domain, addresses, frozenAddrs, excludeFrozen, c.coin.address)
                  && Selected(c.coin, SlpFilter(excludeFrozen, confirmedOnly), ch)
                  && TokenCoinOf(txi, txo, histMap, s, id, fl, c)
                  && FlagAsFrozen(txi, txo, histMap, frozen, domain.GetOr(addresses), c.coin))
  {
    var dom := UtxoDomain(domain, addresses, frozenAddrs, excludeFrozen);
    var f := SlpFilter(excludeFrozen, confirmedOnly);
    assert forall b :: b in dom <==> Visited(domain, addresses, frozenAddrs, excludeFrozen, b);
    SlpUtxoFoldFails(txi, txo, histMap, s, frozen, dom, id, fl, f, ch);
    SlpUtxoFoldSound(txi, txo, histMap, s, frozen, dom, id, fl, f, ch);
    forall k | NoneSpends(txi, txo, histMap, domain.GetOr(addresses), k) ensures NoneSpends(txi, txo, histMap, dom, k) {
    }
  }

  /**
   * Every unspent coin of a visited address that is kept for the token and passes the filters
   * is among the coins get_slp_utxos returns, flagged frozen as the frozen-coin set says.
   */
  lemma GetSlpUtxosComplete(txi: map<Hash, AddrLists<TxiEntry>>, txo: map<Hash, AddrLists<TxoEntry>>,
                            histMap: map<Addr, seq<HistItem>>, s: SlpState, frozen: set<Outpoint>, frozenAddrs: set<Addr>,
                            addresses: seq<Addr>, domain: Option<seq<Addr>>, id: string, excludeFrozen: bool,
                            confirmedOnly: bool, fl: SlpFlags, ch: Chain, a: Addr, k: Outpoint)
    requires Visited(domain, addresses, frozenAddrs, excludeFrozen, a)
    requires k in frozen ==> NoneSpends(txi, txo, histMap, domain.GetOr(addresses), k)
    requires var io := IoOf(txi, txo, histMap, a);
             && k in io.received.vals && k !in io.sent.vals && SlpCoinKept(s, a, k, id, fl)
             && Selected(ReceivedCoin(io, a, k, k in frozen), SlpFilter(excludeFrozen, confirmedOnly), ch)
    ensures var r := GetSlpUtxos(txi, txo, histMap, s, frozen, frozenAddrs, addresses, domain, id, excludeFrozen, confirmedOnly, fl, ch);
            r.coins.Success? ==> TokenCoin(ReceivedCoin(IoOf(txi, txo, histMap, a), a, k, k in frozen), s, a, k) in r.coins.value
  {
    var dom := UtxoDomain(domain, addresses, frozenAddrs, excludeFrozen);
    assert a in dom;
    SlpUtxoFoldComplete(txi, txo, histMap, s, frozen, dom, id, fl, SlpFilter(excludeFrozen, confirmedOnly), ch, a, k);
  }

  // ---------------------------------------------------------------------------
  // get_slp_token_balance, check_sufficient_slp_balance
  // ---------------------------------------------------------------------------

  /** (valid, unvalidated, invalid, unfrozen valid, frozen valid) as get_slp_token_balance returns them. */
  datatype TokenBalance = TokenBalance(valid: int, unvalidated: int, invalid: int, unfrozenValid: int, frozenValid: int)

  /** The number a coin adds to the balance; only amounts reach the sum (DefaultSlpCoinsSpendable). */
  function TokenAmount(q: Qty): int {
    if q.Amount? then q.amount else 0
  }

  /** The buckets of the token balance. */
  datatype TokenBucket = ValidBucket | UnvalidatedBucket | InvalidBucket | UnfrozenValidBucket | FrozenValidBucket

  /**
   * Which bucket a coin's amount belongs to: valid (validity 1), unvalidated (0) or invalid
   * (above 1); a valid coin is also unfrozen or frozen, by its own flag and its address.
   * A negative validity belongs to no bucket.
   */
  predicate InBucket(c: SlpCoin, b: TokenBucket, frozenAddrs: set<Addr>) {
    match b
    case ValidBucket => c.validity == 1
    case UnvalidatedBucket => c.validity == 0
    case InvalidBucket => c.validity > 1
    case UnfrozenValidBucket => c.validity == 1 && !c.coin.isFrozenCoin && c.coin.address !in frozenAddrs
    case FrozenValidBucket => c.validity == 1 && (c.coin.isFrozenCoin || c.coin.address in frozenAddrs)
  }

  /** Reference: the token amounts of the coins in bucket `b`, summed front to back. */
  function BucketSum(coins: seq<SlpCoin>, b: TokenBucket, frozenAddrs: set<Addr>): int {
    if |coins| == 0 then 0
    else (if InBucket(coins[0], b, frozenAddrs) then TokenAmount(coins[0].tokenValue) else 0)
         + BucketSum(coins[1..], b, frozenAddrs)
  }

  lemma {:induction false} BucketSumSnoc(coins: seq<SlpCoin>, b: TokenBucket, frozenAddrs: set<Addr>)
    requires |coins| > 0
    ensures BucketSum(coins, b, frozenAddrs)
         == BucketSum(coins[..|coins| - 1], b, frozenAddrs)
            + (if InBucket(coins[|coins| - 1], b, frozenAddrs) then TokenAmount(coins[|coins| - 1].tokenValue) else 0)
    decreases |coins|
  {
    if |coins| > 1 {
      BucketSumSnoc(coins[1..], b, frozenAddrs);
      assert coins[1..][..|coins| - 2] == coins[..|coins| - 1][1..];
    }
  }

  /** The coin loop of get_slp_token_balance: each coin adds its amount to the bucket of its validity. */
  function TallyTokens(coins: seq<SlpCoin>, frozenAddrs: set<Addr>): (b: TokenBalance)
    ensures b.valid == BucketSum(coins, ValidBucket, frozenAddrs)
    ensures b.unvalidated == BucketSum(coins, UnvalidatedBucket, frozenAddrs)
    ensures b.invalid == BucketSum(coins, InvalidBucket, frozenAddrs)
    ensures b.unfrozenValid == BucketSum(coins, UnfrozenValidBucket, frozenAddrs)
    ensures b.frozenValid == BucketSum(coins, FrozenValidBucket, frozenAddrs)
  {
    if |coins| == 0 then TokenBalance(0, 0, 0, 0, 0)
    else
      var t := TallyTokens(coins[..|coins| - 1], frozenAddrs);
      var c := coins[|coins| - 1];
      var q := TokenAmount(c.tokenValue);
      BucketSumSnoc(coins, ValidBucket, frozenAddrs);
      BucketSumSnoc(coins, UnvalidatedBucket, frozenAddrs);
      BucketSumSnoc(coins, InvalidBucket, frozenAddrs);
      BucketSumSnoc(coins, UnfrozenValidBucket, frozenAddrs);
      BucketSumSnoc(coins, FrozenValidBucket, frozenAddrs);
      var valid := t.valid + (if c.validity == 1 then q else 0);
      var unfrozen := t.unfrozenValid + (if c.validity == 1 && !c.coin.isFrozenCoin && c.coin.address !in frozenAddrs then q else 0);
      TokenBalance(valid,
                   t.unvalidated + (if c.validity == 0 then q else 0),
                   t.invalid + (if c.validity > 1 then q else 0),
                   unfrozen, valid - unfrozen)
  }

  /** Reference: the sum of the token amounts of `coins`. */
  function AmountSum(coins: seq<SlpCoin>): int {
    if |coins| == 0 then 0 else AmountSum(coins[..|coins| - 1]) + TokenAmount(coins[|coins| - 1].tokenValue)
  }

  /** Reference: the sum of the token amounts of the coins neither frozen nor at a frozen address. */
  function UnfrozenSum(coins: seq<SlpCoin>, frozenAddrs: set<Addr>): int {
    if |coins| == 0 then 0
    else
      var c := coins[|coins| - 1];
      UnfrozenSum(coins[..|coins| - 1], frozenAddrs)
      + (if !c.coin.isFrozenCoin && c.coin.address !in frozenAddrs then TokenAmount(c.tokenValue) else 0)
  }

  /**
   * On valid coins the tally puts everything in the valid bucket and the unfrozen part in the
   * unfrozen bucket; with positive amounts the unfrozen part is between zero and the whole.
   */
  lemma {:induction false} TallyOfValidCoins(coins: seq<SlpCoin>, frozenAddrs: set<Addr>)
    requires forall i :: 0 <= i < |coins| ==> coins[i].validity == 1 && coins[i].tokenValue.Amount? && coins[i].tokenValue.amount > 0
    ensures var b := TallyTokens(coins, frozenAddrs);
            && b.valid == AmountSum(coins) && b.unvalidated == 0 && b.invalid == 0
            && b.unfrozenValid == UnfrozenSum(coins, frozenAddrs)
            && 0 <= b.unfrozenValid <= b.valid
  {
    if |coins| > 0 {
      var init := coins[..|coins| - 1];
      assert forall i :: 0 <= i < |init| ==> init[i] == coins[i];
      TallyOfValidCoins(init, frozenAddrs);
    }
  }

  /** The bucket `b` of a token balance. */
  function BucketOf(t: TokenBalance, b: TokenBucket): int {
    match b
    case ValidBucket => t.valid
    case UnvalidatedBucket => t.unvalidated
    case InvalidBucket => t.invalid
    case UnfrozenValidBucket => t.unfrozenValid
    case FrozenValidBucket => t.frozenValid
  }

  /** The valid amount splits into its unfrozen and frozen parts, as the returned tuple's last entry says. */
  lemma {:induction false} ValidBucketSplits(coins: seq<SlpCoin>, frozenAddrs: set<Addr>)
    ensures BucketSum(coins, ValidBucket, frozenAddrs)
         == BucketSum(coins, UnfrozenValidBucket, frozenAddrs) + BucketSum(coins, FrozenValidBucket, frozenAddrs)
    decreases |coins|
  {
    if |coins| > 0 {
      ValidBucketSplits(coins[1..], frozenAddrs);
    }
  }

  /** The token balance, or the error the coin lookup raised, and the frozen-coin set as left. */
  datatype SlpBalanceResult = SlpBalanceResult(bal: Result<TokenBalance, string>, frozen: set<Outpoint>)

  /**
   * get_slp_token_balance: the token coins of every address of the wallet (frozen ones
   * included, confirmed only when configured), tallied by validity.
   */
  function GetSlpTokenBalance(txi: map<Hash, AddrLists<TxiEntry>>, txo: map<Hash, AddrLists<TxoEntry>>,
                              histMap: map<Addr, seq<HistItem>>, s: SlpState, frozen: set<Outpoint>, frozenAddrs: set<Addr>,
                              addresses: seq<Addr>, id: string, confirmedOnly: bool, ch: Chain): (r: SlpBalanceResult)
    ensures r.frozen <= frozen
    ensures r.bal.Success? ==> r.bal.value.frozenValid == r.bal.value.valid - r.bal.value.unfrozenValid
  {
    var u := SlpUtxoFold(txi, txo, histMap, s, frozen, addresses, id, DefaultFlags, SlpFilter(false, confirmedOnly), ch);
    match u.coins
    case Failure(e) => SlpBalanceResult(Failure(e), u.frozen)
    case Success(cs) => SlpBalanceResult(Success(TallyTokens(cs, frozenAddrs)), u.frozen)
  }

  /**
   * What get_slp_token_balance returns: it fails exactly when an address of the wallet spent a
   * coin it never received; otherwise each bucket holds the token amounts of the coins of that
   * bucket among the token coins of the wallet's addresses (SlpUtxoFoldSound, SlpUtxoFoldComplete).
   */
  lemma GetSlpTokenBalanceMeaning(txi: map<Hash, AddrLists<TxiEntry>>, txo: map<Hash, AddrLists<TxoEntry>>,
                                  histMap: map<Addr, seq<HistItem>>, s: SlpState, frozen: set<Outpoint>, frozenAddrs: set<Addr>,
                                  addresses: seq<Addr>, id: string, confirmedOnly: bool, ch: Chain)
    ensures var r := GetSlpTokenBalance(txi, txo, histMap, s, frozen, frozenAddrs, addresses, id, confirmedOnly, ch);
            var u := SlpUtxoFold(txi, txo, histMap, s, frozen, addresses, id, DefaultFlags, SlpFilter(false, confirmedOnly), ch);
            && (r.bal.Success? <==> forall b :: b in addresses ==> SpendsReceived(IoOf(txi, txo, histMap, b)))
            && (r.bal.Success? ==> forall bk :: BucketOf(r.bal.value, bk) == BucketSum(u.coins.value, bk, frozenAddrs))
  {
    SlpUtxoFoldFails(txi, txo, histMap, s, frozen, addresses, id, DefaultFlags, SlpFilter(false, confirmedOnly), ch);
  }

  /**
   * With tags as the classifier writes them, the token balance has nothing unvalidated or
   * invalid, and its valid total and unfrozen part are the amounts of the coins returned.
   */
  lemma TokenBalanceMeaning(txi: map<Hash, AddrLists<TxiEntry>>, txo: map<Hash, AddrLists<TxoEntry>>,
                            histMap: map<Addr, seq<HistItem>>, s: SlpState, frozen: set<Outpoint>, frozenAddrs: set<Addr>,
                            addresses: seq<Addr>, id: string, confirmedOnly: bool, ch: Chain)
    requires TagsWellFormed(s.slpTxo)
    ensures var r := GetSlpTokenBalance(txi, txo, histMap, s, frozen, frozenAddrs, addresses, id, confirmedOnly, ch);
            var u := SlpUtxoFold(txi, txo, histMap, s, frozen, addresses, id, DefaultFlags, SlpFilter(false, confirmedOnly), ch);
            r.bal.Success? ==>
              && r.bal.value.unvalidated == 0 && r.bal.value.invalid == 0
              && r.bal.value.valid == AmountSum(u.coins.value)
              && r.bal.value.unfrozenValid == UnfrozenSum(u.coins.value, frozenAddrs)
              && 0 <= r.bal.value.unfrozenValid <= r.bal.value.valid
  {
    var u := SlpUtxoFold(txi, txo, histMap, s, frozen, addresses, id, DefaultFlags, SlpFilter(false, confirmedOnly), ch);
    if u.coins.Success? {
      SlpUtxoFoldKept(txi, txo, histMap, s, frozen, addresses, id, DefaultFlags, SlpFilter(false, confirmedOnly), ch);
      var cs := u.coins.value;
      forall i | 0 <= i < |cs| ensures cs[i].validity == 1 && cs[i].tokenValue.Amount? && cs[i].tokenValue.amount > 0 {
        var c := cs[i];
        assert c in cs;
        assert SlpCoinKept(s, c.coin.address, c.coin.prevout, id, DefaultFlags);
      }
      TallyOfValidCoins(cs, frozenAddrs);
    }
  }

  /** The errors check_sufficient_slp_balance raises, or the lookup error it lets through. */
  datatype SlpFundsError = NotEnoughFundsSlp | NotEnoughUnfrozenFundsSlp | LookupFailed(reason: string)

  function Sum(xs: seq<int>): int {
    if |xs| == 0 then 0 else Sum(xs[..|xs| - 1]) + xs[|xs| - 1]
  }

  /** The outcome of check_sufficient_slp_balance, and the frozen-coin set as the balance lookup leaves it. */
  datatype SlpFundsCheck = SlpFundsCheck(result: Result<(), SlpFundsError>, frozen: set<Outpoint>)

  /**
   * check_sufficient_slp_balance: for a token wallet and a SEND, the total sent must not
   * exceed the valid balance of the token, nor its unfrozen part.
   */
  function CheckSufficientSlpBalance(txi: map<Hash, AddrLists<TxiEntry>>, txo: map<Hash, AddrLists<TxoEntry>>,
                                     histMap: map<Addr, seq<HistItem>>, s: SlpState, frozen: set<Outpoint>,
                                     frozenAddrs: set<Addr>, addresses: seq<Addr>, isSlp: bool, msg: Body,
                                     confirmedOnly: bool, ch: Chain): (r: SlpFundsCheck)
    ensures !isSlp || !msg.Send? ==> r == SlpFundsCheck(Success(()), frozen)
    ensures isSlp && msg.Send? ==>
              var b := GetSlpTokenBalance(txi, txo, histMap, s, frozen, frozenAddrs, addresses, msg.tokenId, confirmedOnly, ch);
              && r.frozen == b.frozen
              && (b.bal.Failure? ==> r.result == Failure(LookupFailed(b.bal.error)))
              && (b.bal.Success? ==>
                    && (r.result == Failure(NotEnoughFundsSlp) <==> Sum(msg.amounts) > b.bal.value.valid)
                    && (r.result == Failure(NotEnoughUnfrozenFundsSlp) <==>
                          b.bal.value.unfrozenValid < Sum(msg.amounts) <= b.bal.value.valid)
                    && (r.result.Success? <==> Sum(msg.amounts) <= b.bal.value.valid && Sum(msg.amounts) <= b.bal.value.unfrozenValid))
  {
    if !isSlp || !msg.Send? then SlpFundsCheck(Success(()), frozen)
    else
      var total := Sum(msg.amounts);
      var b := GetSlpTokenBalance(txi, txo, histMap, s, frozen, frozenAddrs, addresses, msg.tokenId, confirmedOnly, ch);
      match b.bal
      case Failure(e) => SlpFundsCheck(Failure(LookupFailed(e)), b.frozen)
      case Success(bal) =>
        if total > bal.valid then SlpFundsCheck(Failure(NotEnoughFundsSlp), b.frozen)
        else if total > bal.unfrozenValid then SlpFundsCheck(Failure(NotEnoughUnfrozenFundsSlp), b.frozen)
        else SlpFundsCheck(Success(()), b.frozen)
  }

  /**
   * A SEND that passes the check sends no more than the amounts held in unfrozen, valid coins
   * of the token at unfrozen addresses.
   */
  lemma PassedCheckIsCovered(txi: map<Hash, AddrLists<TxiEntry>>, txo: map<Hash, AddrLists<TxoEntry>>,
                             histMap: map<Addr, seq<HistItem>>, s: SlpState, frozen: set<Outpoint>,
                             frozenAddrs: set<Addr>, addresses: seq<Addr>, msg: Body, confirmedOnly: bool, ch: Chain)
    requires TagsWellFormed(s.slpTxo) && msg.Send?
    requires CheckSufficientSlpBalance(txi, txo, histMap, s, frozen, frozenAddrs, addresses, true, msg, confirmedOnly, ch).result.Success?
    ensures var u := SlpUtxoFold(txi, txo, histMap, s, frozen, addresses, msg.tokenId, DefaultFlags, SlpFilter(false, confirmedOnly), ch);
            u.coins.Success? && Sum(msg.amounts) <= UnfrozenSum(u.coins.value, frozenAddrs)
  {
    TokenBalanceMeaning(txi, txo, histMap, s, frozen, frozenAddrs, addresses, msg.tokenId, confirmedOnly, ch);
  }
}
