/**
 An accepted estimate read off the custody rows and deposit times alone: what each
 card line, each shipment and the whole bill must say, whatever the grouping.
 */
module RedeemBill {
  import opened Wrappers
  import opened RedeemMoney
  import opened RedeemShipments
  import opened RedeemEstimate
  import opened RedeemTheorems

  // ---- What custody says of a token ------------------------------------------------------------------

  /** Row `i` is the first one of token `id`. */
  predicate FirstRow(custody: seq<Row>, id: int, i: nat) {
    i < |custody| && custody[i].tokenId == id && forall k :: 0 <= k < i ==> custody[k].tokenId != id
  }

  lemma {:induction false} FoundIsFirst(custody: seq<Row>, id: int)
    ensures FindRow(custody, id).None? <==> forall i :: 0 <= i < |custody| ==> custody[i].tokenId != id
    ensures forall i: nat :: FirstRow(custody, id, i) ==> FindRow(custody, id) == Some(custody[i])
  {
    if custody == [] {
    } else {
      FoundIsFirst(custody[1..], id);
      forall i: nat | FirstRow(custody, id, i) ensures FindRow(custody, id) == Some(custody[i]) {
        if i > 0 {
          assert FirstRow(custody[1..], id, i - 1);
        }
      }
    }
  }

  /** A token is as its first row and its deposit time give it, when that row is known and has a policy. */
  lemma MetaIff(v: Vaults, id: int, i: nat)
    requires FirstRow(v.custody, id, i)
    ensures var row := v.custody[i];
            (MetaOf(v, id).Some? <==> row.known && row.policy.Some?) &&
            (MetaOf(v, id).Some? ==>
               var m := MetaOf(v, id).value;
               m.tokenId == id && row.policy == Some(m.policy) && m.partner == row.partner &&
               (m.vaultedAt.Some? <==> id in v.deposits) && (m.vaultedAt.Some? ==> m.vaultedAt.value == v.deposits[id]))
  {
    FoundIsFirst(v.custody, id);
  }

  predicate InPsaVault(v: Vaults, id: int) {
    MetaOf(v, id).Some? && MetaOf(v, id).value.policy == Standard
  }

  /** In the PSA vault for less than the schedule's days, or since nobody knows when. */
  predicate PaysEarlyFee(cfg: Config, now: int, v: Vaults, id: int) {
    InPsaVault(v, id) && (id in v.deposits ==> now < v.deposits[id] + cfg.earlyDays * 86_400_000)
  }

  function PsaIds(v: Vaults, ids: seq<int>): set<int> { set id | id in ids && InPsaVault(v, id) }

  function EarlyIds(cfg: Config, now: int, v: Vaults, ids: seq<int>): set<int> {
    set id | id in ids && PaysEarlyFee(cfg, now, v, id)
  }

  lemma {:induction false} TokensAreTheirIds(v: Vaults, ids: seq<int>)
    requires Metas(v, ids).Some?
    ensures forall m :: m in Metas(v, ids).value <==> m.tokenId in ids && MetaOf(v, m.tokenId) == Some(m)
  {
    if ids == [] {
    } else {
      assert ids == ids[..|ids| - 1] + [ids[|ids| - 1]];
      TokensAreTheirIds(v, ids[..|ids| - 1]);
    }
  }

  lemma PsaKeyIff(m: Meta)
    ensures KeyOf(m) == "psa_vault" <==> m.policy == Standard
  {
    assert PSA_KEY[1] == 's' && "partner:"[1] == 'a';
  }

  // ---- One package -----------------------------------------------------------------------------------

  /** The request's packages, each of which could be shipped. */
  predicate Shipped(cfg: Config, now: int, v: Vaults, req: Request, shipments: seq<Shipment>) {
    Metas(v, UniqueIds(req.tokenIds)).Some? && UniqueIds(req.tokenIds) != [] &&
    ShipAll(cfg, req.country, now, v, Groups(MetasOf(v, req))) == Ok(shipments)
  }

  lemma AcceptedIsShipped(cfg: Config, now: int, v: Vaults, req: Request)
    requires EstimateOf(cfg, now, v, req).Ok? && UniqueIds(req.tokenIds) != []
    ensures var e := EstimateOf(cfg, now, v, req).value;
            Shipped(cfg, now, v, req, e.shipments) && e == Priced(e.shipments) && e.cards == AllCards(e.shipments)
  {
  }

  /** Shipment `i` is the package of group `i`. */
  lemma PackageOf(cfg: Config, now: int, v: Vaults, req: Request, shipments: seq<Shipment>, i: nat)
    requires Shipped(cfg, now, v, req, shipments) && i < |shipments|
    ensures i < |Groups(MetasOf(v, req))| &&
            ShipmentOf(cfg, req.country, now, v, Groups(MetasOf(v, req))[i]) == Ok(shipments[i])
  {
    EachShipmentIsItsGroups(cfg, req.country, now, v, Groups(MetasOf(v, req)));
  }

  /** Every token of a package is one of the request's, and is in the PSA vault exactly when the package is PSA's. */
  lemma PackageTokens(v: Vaults, req: Request, i: nat, m: Meta)
    requires Metas(v, UniqueIds(req.tokenIds)).Some? && i < |Groups(MetasOf(v, req))|
    requires m in Groups(MetasOf(v, req))[i].tokens
    ensures var g := Groups(MetasOf(v, req))[i];
            m.tokenId in UniqueIds(req.tokenIds) && MetaOf(v, m.tokenId) == Some(m) && KeyOf(m) == g.key &&
            (g.ofPartner <==> m.policy == SelfVaultHold) && (!g.ofPartner <==> g.key == "psa_vault")
  {
    var metas := MetasOf(v, req);
    TokensAreTheirIds(v, UniqueIds(req.tokenIds));
    KeysAreThoseUsed(metas, Keys(metas)[i]);
    GroupsAreNamed(metas, i);
    PsaKeyIff(m);
    PsaKeyIff(Groups(metas)[i].tokens[0]);
  }

  /** What one card line of a package says about its token. */
  predicate LineFits(cfg: Config, now: int, v: Vaults, c: Card) {
    (c.vaultedAt.Some? <==> c.tokenId in v.deposits) &&
    (c.vaultedAt.Some? ==> c.vaultedAt.value == v.deposits[c.tokenId]) &&
    (if InPsaVault(v, c.tokenId) then
       c.key == "psa_vault" && c.retrieval == cfg.retrieval &&
       (if PaysEarlyFee(cfg, now, v, c.tokenId) then c.early && c.earlyFee == cfg.early
        else !c.early && c.earlyFee == 0.0)
     else c.key != "psa_vault" && c.retrieval == 0.0 && c.earlyFee == 0.0 && !c.early)
  }

  lemma PsaLineFits(cfg: Config, country: Country, now: int, v: Vaults, m: Meta, first: bool)
    requires MetaOf(v, m.tokenId) == Some(m) && m.policy == Standard
    ensures LineFits(cfg, now, v, PsaCard(cfg, country, now, m, first))
  {
  }

  lemma PackageLinesFit(cfg: Config, now: int, v: Vaults, req: Request, i: nat, k: nat)
    requires Metas(v, UniqueIds(req.tokenIds)).Some? && i < |Groups(MetasOf(v, req))|
    requires ShipmentOf(cfg, req.country, now, v, Groups(MetasOf(v, req))[i]).Ok?
    requires k < |ShipmentOf(cfg, req.country, now, v, Groups(MetasOf(v, req))[i]).value.cards|
    ensures LineFits(cfg, now, v, ShipmentOf(cfg, req.country, now, v, Groups(MetasOf(v, req))[i]).value.cards[k])
  {
    var g := Groups(MetasOf(v, req))[i];
    var m := g.tokens[k];
    assert m in g.tokens;
    PackageTokens(v, req, i, m);
    if !g.ofPartner {
      PsaLineFits(cfg, req.country, now, v, m, k == 0);
    }
  }

  lemma {:induction false} CardIsInAShipment(shipments: seq<Shipment>, c: Card) returns (i: nat, k: nat)
    requires c in AllCards(shipments)
    ensures i < |shipments| && k < |shipments[i].cards| && shipments[i].cards[k] == c
  {
    var last := |shipments| - 1;
    if c in shipments[last].cards {
      i := last;
      k :| 0 <= k < |shipments[i].cards| && shipments[i].cards[k] == c;
    } else {
      i, k := CardIsInAShipment(shipments[..last], c);
    }
  }

  /**
   Every card line of an accepted request: the retrieval fee for a PSA card, the
   early fee exactly when it was deposited too recently or at an unknown time, and no
   fee for a partner's card.
   */
  lemma EveryLineFits(cfg: Config, now: int, v: Vaults, req: Request, c: Card)
    ensures EstimateOf(cfg, now, v, req).Ok? && UniqueIds(req.tokenIds) != [] &&
            c in EstimateOf(cfg, now, v, req).value.cards ==>
              LineFits(cfg, now, v, c)
  {
    if EstimateOf(cfg, now, v, req).Ok? && UniqueIds(req.tokenIds) != [] {
      var e := EstimateOf(cfg, now, v, req).value;
      if c in e.cards {
        AcceptedIsShipped(cfg, now, v, req);
        var i, k := CardIsInAShipment(e.shipments, c);
        PackageOf(cfg, now, v, req, e.shipments, i);
        PackageLinesFit(cfg, now, v, req, i, k);
      }
    }
  }

  /** The published rate for a country. */
  predicate ShipsAtRate(cfg: Config, country: Country, shipping: real) {
    (country == Us ==> shipping == RoundUsd(cfg.us)) &&
    (country == Ca ==> shipping == RoundUsd(cfg.ca)) &&
    (country == Intl ==> shipping == RoundUsd(cfg.intl))
  }

  /** What a shipment says: PSA ships at the country's rate; a partner at its quote for that many cards. */
  predicate ShipmentFits(cfg: Config, v: Vaults, country: Country, sh: Shipment) {
    if sh.ofPartner then
      sh.partner.Some? && sh.key == "partner:" + sh.partner.value && (sh.partner.value, |sh.cards|) in v.quotes &&
      var quote := v.quotes[(sh.partner.value, |sh.cards|)];
      sh.shipping == RoundUsd(quote.shipping) && sh.quoteExpires == Some(quote.expiresAt) &&
      sh.retrieval == 0.0 && sh.earlyFee == 0.0
    else
      sh.key == "psa_vault" && sh.partner.None? && sh.quoteExpires.None? && ShipsAtRate(cfg, country, sh.shipping)
  }

  lemma PsaPackageFits(cfg: Config, country: Country, now: int, v: Vaults, g: Group)
    requires g.key == "psa_vault" && g.tokens != []
    ensures ShipmentFits(cfg, v, country, PsaShipmentOf(cfg, country, now, g))
  {
  }

  lemma PartnerPackageFits(cfg: Config, country: Country, v: Vaults, g: Group)
    requires g.partner.Some? && g.key == "partner:" + g.partner.value && (g.partner.value, |g.tokens|) in v.quotes
    ensures ShipmentFits(cfg, v, country, PartnerShipment(v.quotes[(g.partner.value, |g.tokens|)], g))
  {
  }

  lemma PackageFits(cfg: Config, now: int, v: Vaults, req: Request, shipments: seq<Shipment>, i: nat)
    requires Shipped(cfg, now, v, req, shipments) && i < |shipments|
    ensures ShipmentFits(cfg, v, req.country, shipments[i])
  {
    PackageOf(cfg, now, v, req, shipments, i);
    var g := Groups(MetasOf(v, req))[i];
    GroupsAreNamed(MetasOf(v, req), i);
    PackageTokens(v, req, i, g.tokens[0]);
    if g.ofPartner {
      PartnerPackageFits(cfg, req.country, v, g);
    } else {
      PsaPackageFits(cfg, req.country, now, v, g);
    }
  }

  /** In an accepted request every shipment is charged at its own rate, whichever group it came from. */
  lemma EveryShipmentFits(cfg: Config, now: int, v: Vaults, req: Request, i: nat)
    ensures EstimateOf(cfg, now, v, req).Ok? && UniqueIds(req.tokenIds) != [] &&
            i < |EstimateOf(cfg, now, v, req).value.shipments| ==>
              ShipmentFits(cfg, v, req.country, EstimateOf(cfg, now, v, req).value.shipments[i])
  {
    if EstimateOf(cfg, now, v, req).Ok? && UniqueIds(req.tokenIds) != [] {
      var shipments := EstimateOf(cfg, now, v, req).value.shipments;
      AcceptedIsShipped(cfg, now, v, req);
      if i < |shipments| {
        PackageFits(cfg, now, v, req, shipments, i);
      }
    }
  }

  // ---- The fees of the whole request -------------------------------------------------------------------

  predicate Distinct(ids: seq<int>) { forall i, j :: 0 <= i < j < |ids| ==> ids[i] != ids[j] }

  lemma {:induction false} DistinctCount(ids: seq<int>)
    requires Distinct(ids)
    ensures |set id | id in ids| == |ids|
  {
    if ids == [] {
    } else {
      var front, last := ids[..|ids| - 1], ids[|ids| - 1];
      DistinctCount(front);
      assert (set id | id in ids) == (set id | id in front) + {last};
    }
  }

  function EarlyCardIds(cards: seq<Card>): set<int> { set c | c in cards && c.early :: c.tokenId }

  /** Early cards, counted by their ids. */
  lemma {:induction false} EarlyCount(cards: seq<Card>)
    requires Distinct(CardIds(cards))
    ensures EarlyCards(cards) == |EarlyCardIds(cards)|
  {
    if cards == [] {
    } else {
      var front, last := cards[..|cards| - 1], cards[|cards| - 1];
      assert cards == front + [last] && CardIds(cards) == CardIds(front) + [last.tokenId];
      DistinctFront(CardIds(front), last.tokenId);
      EarlyCount(front);
      assert EarlyCardIds(cards) == if last.early then EarlyCardIds(front) + {last.tokenId} else EarlyCardIds(front);
      forall c | c in front ensures c.tokenId in CardIds(front) {
        var i :| 0 <= i < |front| && front[i] == c;
        assert CardIds(front)[i] == c.tokenId;
      }
    }
  }

  lemma DistinctFront(ids: seq<int>, id: int)
    requires Distinct(ids + [id])
    ensures Distinct(ids) && id !in ids
  {
    forall i, j | 0 <= i < j < |ids| ensures ids[i] != ids[j] {
      assert (ids + [id])[i] == ids[i] && (ids + [id])[j] == ids[j];
    }
    forall i | 0 <= i < |ids| ensures ids[i] != id {
      assert (ids + [id])[i] == ids[i] && (ids + [id])[|ids|] == id;
    }
  }

  lemma OneMoreToken(v: Vaults, front: seq<int>, last: int, key: string)
    requires Metas(v, front + [last]).Some?
    ensures Metas(v, front).Some? && MetaOf(v, last).Some?
    ensures var before, m := TokensOf(Metas(v, front).value, key), MetaOf(v, last).value;
            m.tokenId == last &&
            Ids(TokensOf(Metas(v, front + [last]).value, key)) ==
            if KeyOf(m) == key then Ids(before) + [last] else Ids(before)
  {
    var ids := front + [last];
    assert ids[..|ids| - 1] == front;
    var metas, m := Metas(v, front).value, MetaOf(v, last).value;
    assert (metas + [m])[..|metas|] == metas;
  }

  /** A package holds exactly the tokens with its key. */
  lemma {:induction false} PackageIds(v: Vaults, ids: seq<int>, key: string)
    requires Metas(v, ids).Some? && Distinct(ids)
    ensures var held := Ids(TokensOf(Metas(v, ids).value, key));
            Distinct(held) &&
            forall id :: id in held <==> id in ids && MetaOf(v, id).Some? && KeyOf(MetaOf(v, id).value) == key
  {
    if ids == [] {
    } else {
      var front, last := ids[..|ids| - 1], ids[|ids| - 1];
      assert ids == front + [last];
      DistinctFront(front, last);
      OneMoreToken(v, front, last, key);
      PackageIds(v, front, key);
    }
  }

  /** These tokens are those of the ids that are in the PSA vault, each once. */
  predicate PsaPackage(v: Vaults, ids: seq<int>, tokens: seq<Meta>) {
    Distinct(Ids(tokens)) && (set id | id in Ids(tokens)) == PsaIds(v, ids) && |tokens| == |PsaIds(v, ids)| &&
    forall m :: m in tokens ==> MetaOf(v, m.tokenId) == Some(m) && m.policy == Standard
  }

  /** The PSA package of a request, by ids. */
  lemma PsaTokens(v: Vaults, req: Request)
    requires Metas(v, UniqueIds(req.tokenIds)).Some?
    ensures var tokens := TokensOf(MetasOf(v, req), PSA_KEY);
            PsaPackage(v, UniqueIds(req.tokenIds), tokens)
  {
    var ids := UniqueIds(req.tokenIds);
    UniqueIdsAreThePositiveOnes(req.tokenIds);
    PackageIds(v, ids, PSA_KEY);
    forall id | MetaOf(v, id).Some? ensures KeyOf(MetaOf(v, id).value) == PSA_KEY <==> InPsaVault(v, id) {
      PsaKeyIff(MetaOf(v, id).value);
    }
    var tokens := TokensOf(MetasOf(v, req), PSA_KEY);
    DistinctCount(Ids(tokens));
    assert |Ids(tokens)| == |tokens|;
    TokensAreTheirIds(v, ids);
    KeysAreThoseUsed(MetasOf(v, req), PSA_KEY);
    forall m | m in tokens ensures m.policy == Standard {
      PsaKeyIff(m);
    }
  }

  lemma PsaEarlyCount(cfg: Config, country: Country, now: int, v: Vaults, ids: seq<int>, tokens: seq<Meta>)
    requires PsaPackage(v, ids, tokens)
    ensures EarlyCards(PsaCards(cfg, country, now, tokens)) == |EarlyIds(cfg, now, v, ids)|
  {
    var cards := PsaCards(cfg, country, now, tokens);
    forall k | 0 <= k < |cards|
      ensures cards[k].tokenId == tokens[k].tokenId
      ensures cards[k].tokenId in PsaIds(v, ids) && (cards[k].early <==> cards[k].tokenId in EarlyIds(cfg, now, v, ids))
    {
      assert tokens[k] in tokens && Ids(tokens)[k] == tokens[k].tokenId;
      PsaLineFits(cfg, country, now, v, tokens[k], k == 0);
    }
    assert CardIds(cards) == Ids(tokens);
    EarlyCount(cards);
    EarlyAreThose(cards, PsaIds(v, ids), EarlyIds(cfg, now, v, ids));
  }

  lemma EarlyAreThose(cards: seq<Card>, ids: set<int>, early: set<int>)
    requires (set id | id in CardIds(cards)) == ids && early <= ids
    requires forall k :: 0 <= k < |cards| ==> (cards[k].early <==> cards[k].tokenId in early)
    ensures EarlyCardIds(cards) == early
  {
    forall id ensures id in EarlyCardIds(cards) <==> id in early {
      if id in early {
        assert id in CardIds(cards);
        var k :| 0 <= k < |cards| && cards[k].tokenId == id;
        assert cards[k] in cards;
      }
    }
  }

  /** A column with at most one entry that is not zero. */
  lemma {:induction false} OneEntry<T>(xs: seq<T>, f: T -> real, k: nat)
    requires forall i :: 0 <= i < |xs| && i != k ==> f(xs[i]) == 0.0
    ensures SumOf(xs, f) == if k < |xs| then f(xs[k]) else 0.0
  {
    if xs == [] {
    } else {
      OneEntry(xs[..|xs| - 1], f, k);
    }
  }

  function EarlyCardsOf(sh: Shipment): real { EarlyCards(sh.cards) as real }

  lemma {:induction false} EarlyColumn(shipments: seq<Shipment>)
    ensures SumOf(shipments, EarlyCardsOf) == EarlyCards(AllCards(shipments)) as real
  {
    if shipments == [] {
    } else {
      var front := shipments[..|shipments| - 1];
      EarlyColumn(front);
      EarlyCardsAdd(AllCards(front), shipments[|shipments| - 1].cards);
    }
  }

  /** What a shipment contributes to the three columns. */
  predicate Fees(sh: Shipment, retrieval: real, earlyFee: real, early: nat) {
    sh.retrieval == retrieval && sh.earlyFee == earlyFee && EarlyCards(sh.cards) == early
  }

  lemma FeesOfPsa(cfg: Config, country: Country, now: int, v: Vaults, ids: seq<int>, g: Group)
    requires PsaPackage(v, ids, g.tokens)
    ensures Fees(PsaShipmentOf(cfg, country, now, g), RoundUsd(Times(cfg.retrieval, |PsaIds(v, ids)|)),
                 RoundUsd(Times(cfg.early, |EarlyIds(cfg, now, v, ids)|)), |EarlyIds(cfg, now, v, ids)|)
  {
    PsaEarlyCount(cfg, country, now, v, ids, g.tokens);
  }

  lemma FeesOfPartner(quote: Quote, g: Group)
    ensures Fees(PartnerShipment(quote, g), 0.0, 0.0, 0)
  {
    NoPartnerCardIsEarly(quote, g, |g.tokens|);
    assert PartnerShipment(quote, g).cards[..|g.tokens|] == PartnerShipment(quote, g).cards;
  }

  /** Shipment `i` is PSA's only package, or one without fees. */
  lemma FeesOfPackage(cfg: Config, now: int, v: Vaults, req: Request, shipments: seq<Shipment>, i: nat)
    requires Shipped(cfg, now, v, req, shipments) && i < |shipments| && i < |Keys(MetasOf(v, req))|
    ensures var ids := UniqueIds(req.tokenIds);
            if Keys(MetasOf(v, req))[i] == PSA_KEY then
              Fees(shipments[i], RoundUsd(Times(cfg.retrieval, |PsaIds(v, ids)|)),
                   RoundUsd(Times(cfg.early, |EarlyIds(cfg, now, v, ids)|)), |EarlyIds(cfg, now, v, ids)|)
            else Fees(shipments[i], 0.0, 0.0, 0)
  {
    PackageOf(cfg, now, v, req, shipments, i);
    var g := Groups(MetasOf(v, req))[i];
    GroupsAreNamed(MetasOf(v, req), i);
    PackageTokens(v, req, i, g.tokens[0]);
    if g.key == PSA_KEY {
      PsaTokens(v, req);
      FeesOfPsa(cfg, req.country, now, v, UniqueIds(req.tokenIds), g);
    } else {
      FeesOfPartner(v.quotes[(g.partner.value, |g.tokens|)], g);
    }
  }

  /** Columns to which only shipment `k` contributes. */
  lemma OneShipmentWithFees(shipments: seq<Shipment>, k: nat, retrieval: real, earlyFee: real, early: nat)
    requires forall i :: 0 <= i < |shipments| && i != k ==> Fees(shipments[i], 0.0, 0.0, 0)
    requires if k < |shipments| then Fees(shipments[k], retrieval, earlyFee, early)
             else retrieval == 0.0 && earlyFee == 0.0 && early == 0
    ensures SumOf(shipments, RetrievalOf) == retrieval && SumOf(shipments, EarlyFeeOf) == earlyFee
    ensures EarlyCards(AllCards(shipments)) == early
  {
    OneEntry(shipments, RetrievalOf, k);
    OneEntry(shipments, EarlyFeeOf, k);
    OneEntry(shipments, EarlyCardsOf, k);
    EarlyColumn(shipments);
  }

  /** The three columns of fees over all shipments. */
  lemma FeeColumns(cfg: Config, now: int, v: Vaults, req: Request, shipments: seq<Shipment>)
    requires Shipped(cfg, now, v, req, shipments)
    ensures var psa, early := |PsaIds(v, UniqueIds(req.tokenIds))|, |EarlyIds(cfg, now, v, UniqueIds(req.tokenIds))|;
            EarlyCards(AllCards(shipments)) == early &&
            SumOf(shipments, RetrievalOf) == RoundUsd(Times(cfg.retrieval, psa)) &&
            SumOf(shipments, EarlyFeeOf) == RoundUsd(Times(cfg.early, early))
  {
    var ids := UniqueIds(req.tokenIds);
    var k := PsaPackageAt(cfg, now, v, req, shipments);
    forall i | 0 <= i < |shipments|
      ensures if i == k then
                Fees(shipments[i], RoundUsd(Times(cfg.retrieval, |PsaIds(v, ids)|)),
                     RoundUsd(Times(cfg.early, |EarlyIds(cfg, now, v, ids)|)), |EarlyIds(cfg, now, v, ids)|)
              else Fees(shipments[i], 0.0, 0.0, 0)
    {
      FeesOfPackage(cfg, now, v, req, shipments, i);
    }
    OneShipmentWithFees(shipments, k, RoundUsd(Times(cfg.retrieval, |PsaIds(v, ids)|)),
                        RoundUsd(Times(cfg.early, |EarlyIds(cfg, now, v, ids)|)), |EarlyIds(cfg, now, v, ids)|);
  }

  /** Where PSA's package is among the shipments: nowhere when no token is PSA's. */
  lemma PsaPackageAt(cfg: Config, now: int, v: Vaults, req: Request, shipments: seq<Shipment>) returns (k: nat)
    requires Shipped(cfg, now, v, req, shipments)
    ensures var ids, keys := UniqueIds(req.tokenIds), Keys(MetasOf(v, req));
            |keys| == |shipments| && (forall i :: 0 <= i < |keys| ==> (keys[i] == PSA_KEY <==> i == k)) &&
            (k >= |keys| ==> |PsaIds(v, ids)| == 0 && |EarlyIds(cfg, now, v, ids)| == 0) && RoundUsd(0.0) == 0.0
  {
    var ids, metas := UniqueIds(req.tokenIds), MetasOf(v, req);
    EachShipmentIsItsGroups(cfg, req.country, now, v, Groups(metas));
    KeysAreDistinct(metas);
    KeysAreThoseUsed(metas, PSA_KEY);
    PsaTokens(v, req);
    RoundingShifts(0.0, 0);
    if PSA_KEY in Keys(metas) {
      k :| 0 <= k < |Keys(metas)| && Keys(metas)[k] == PSA_KEY;
    } else {
      k := |Keys(metas)|;
      assert |PsaIds(v, ids)| == 0 && EarlyIds(cfg, now, v, ids) <= PsaIds(v, ids);
    }
  }

  /** The fees of an estimate for so many PSA cards, so many of them early. */
  predicate FeesFor(cfg: Config, e: Estimate, psa: nat, early: nat) {
    e.earlyCount == early && e.retrieval == RoundUsd(cfg.retrieval * psa as real) &&
    e.earlyFee == RoundUsd(cfg.early * early as real) && WithdrawFits(e)
  }

  lemma PricedFees(cfg: Config, shipments: seq<Shipment>, psa: nat, early: nat)
    requires EarlyCards(AllCards(shipments)) == early
    requires SumOf(shipments, RetrievalOf) == RoundUsd(Times(cfg.retrieval, psa))
    requires SumOf(shipments, EarlyFeeOf) == RoundUsd(Times(cfg.early, early))
    ensures FeesFor(cfg, Priced(shipments), psa, early)
  {
    TimesIsProduct(cfg.retrieval, psa);
    TimesIsProduct(cfg.early, early);
    WithdrawIsShared(shipments);
  }

  /**
   The bill in closed form: retrieval once per distinct PSA card, the early fee once
   per card deposited too recently or at an unknown time, rounded once each, however
   the cards were grouped and in whatever order they were named.
   */
  lemma FeesAreForTheTokens(cfg: Config, now: int, v: Vaults, req: Request)
    ensures EstimateOf(cfg, now, v, req).Ok? && UniqueIds(req.tokenIds) != [] ==>
              FeesFor(cfg, EstimateOf(cfg, now, v, req).value, |PsaIds(v, UniqueIds(req.tokenIds))|,
                      |EarlyIds(cfg, now, v, UniqueIds(req.tokenIds))|)
  {
    if EstimateOf(cfg, now, v, req).Ok? && UniqueIds(req.tokenIds) != [] {
      AcceptedIsShipped(cfg, now, v, req);
      var shipments := EstimateOf(cfg, now, v, req).value.shipments;
      FeeColumns(cfg, now, v, req, shipments);
      PricedFees(cfg, shipments, |PsaIds(v, UniqueIds(req.tokenIds))|,
                 |EarlyIds(cfg, now, v, UniqueIds(req.tokenIds))|);
    }
  }

  /** The fees together, and their share per card to the nearest cent. */
  predicate WithdrawFits(e: Estimate) {
    e.withdraw == e.retrieval + e.earlyFee &&
    (e.cards != [] ==> -0.005 < e.withdrawPerCard - e.withdraw / |e.cards| as real <= 0.005)
  }

  lemma WithdrawIsShared(shipments: seq<Shipment>)
    ensures WithdrawFits(Priced(shipments))
  {
    var e := Priced(shipments);
    SumAdds(shipments, RetrievalOf, EarlyFeeOf, WithdrawOf);
    if e.cards != [] {
      RoundingIsNear(e.withdraw / |e.cards| as real);
    }
  }

  // ---- Quotes and counts ---------------------------------------------------------------------------------

  /** The estimate runs out with the first of its quotes, and never when it has none. */
  lemma {:induction false} EarliestIsFirst(shipments: seq<Shipment>)
    ensures Earliest(shipments).None? <==> forall sh :: sh in shipments ==> sh.quoteExpires.None?
    ensures Earliest(shipments).Some? ==> exists sh :: sh in shipments && sh.quoteExpires == Earliest(shipments)
    ensures forall sh :: sh in shipments && sh.quoteExpires.Some? ==>
              Earliest(shipments).Some? && Earliest(shipments).value <= sh.quoteExpires.value
  {
    if shipments == [] {
    } else {
      var front, last := shipments[..|shipments| - 1], shipments[|shipments| - 1];
      EarliestIsFirst(front);
      assert shipments == front + [last];
      assert last in shipments;
      if Earliest(front).Some? {
        var sh :| sh in front && sh.quoteExpires == Earliest(front);
        assert sh in shipments;
      }
    }
  }

  /** `n` unnamed cards are charged the retrieval and the early fee each, and shipping once. */
  predicate ChargedByCount(cfg: Config, country: Country, e: Estimate, n: nat) {
    e.cardCount == n && e.earlyCount == n && e.retrieval == RoundUsd(cfg.retrieval * n as real) &&
    e.earlyFee == RoundUsd(cfg.early * n as real) &&
    if n > 0 then ShipsAtRate(cfg, country, e.shipping) else e.shipping == 0.0
  }

  /** A count of cards cut to between one and the package limit. */
  predicate CutTo(cfg: Config, asked: int, n: nat) {
    n <= cfg.maxItems && (1 <= asked <= cfg.maxItems ==> n == asked) &&
    (asked > cfg.maxItems ==> n == cfg.maxItems) && (asked < 1 <= cfg.maxItems ==> n == 1)
  }

  /** Without ids the count is cut to between one and the package limit. */
  lemma CountIsCharged(cfg: Config, now: int, v: Vaults, req: Request, n: nat)
    requires UniqueIds(req.tokenIds) == []
    requires CutTo(cfg, if req.cardCount.Some? then req.cardCount.value.Floor else 1, n)
    ensures EstimateOf(cfg, now, v, req).Ok? && ChargedByCount(cfg, req.country, EstimateOf(cfg, now, v, req).value, n)
  {
    CountOnlyFees(cfg, req.country, now, n);
  }

  lemma CountOnlyFees(cfg: Config, country: Country, now: int, n: nat)
    ensures ChargedByCount(cfg, country, CountOnly(cfg, country, now, n), n)
  {
    OneShipment(PsaShipmentOf(cfg, country, now, Group(PSA_KEY, false, None, Blank(n))));
    BlankCardsAreEarly(cfg, country, now, n);
    TimesIsProduct(cfg.retrieval, n);
    TimesIsProduct(cfg.early, n);
  }

  // ---- Which refusal ---------------------------------------------------------------------------------------

  function PackageAt(metas: seq<Meta>, i: nat): seq<Meta>
    requires i < |Keys(metas)|
  {
    TokensOf(metas, Keys(metas)[i])
  }

  predicate PartnersOwn(tokens: seq<Meta>) { tokens != [] && tokens[0].policy == SelfVaultHold }

  predicate HasNoPartnerId(tokens: seq<Meta>) {
    PartnersOwn(tokens) && (tokens[0].partner.None? || tokens[0].partner.value == "")
  }

  /** Too many cards, or a partner package without a partner id. */
  predicate Unadmitted(cfg: Config, tokens: seq<Meta>) { |tokens| > cfg.maxItems || HasNoPartnerId(tokens) }

  /** A partner package whose partner has no address, or for which the carrier quotes nothing. */
  predicate Unquoted(v: Vaults, tokens: seq<Meta>) {
    PartnersOwn(tokens) && tokens[0].partner.Some? &&
    (tokens[0].partner.value !in v.origins || (tokens[0].partner.value, |tokens|) !in v.quotes)
  }

  predicate NoneUnadmitted(cfg: Config, metas: seq<Meta>, n: nat) {
    forall k :: 0 <= k < n && k < |Keys(metas)| ==> !Unadmitted(cfg, PackageAt(metas, k))
  }

  predicate NoneUnquoted(v: Vaults, metas: seq<Meta>, n: nat) {
    forall k :: 0 <= k < n && k < |Keys(metas)| ==> !Unquoted(v, PackageAt(metas, k))
  }

  predicate AnyPartner(metas: seq<Meta>) { exists m :: m in metas && m.policy == SelfVaultHold }

  lemma {:induction false} FirstFaultIs(cfg: Config, groups: seq<Group>, i: nat)
    requires i <= |groups| && forall k :: 0 <= k < i ==> Fault(cfg, groups[k]).None?
    ensures i == |groups| ==> FirstFault(cfg, groups).None?
    ensures i < |groups| && Fault(cfg, groups[i]).Some? ==> FirstFault(cfg, groups) == Fault(cfg, groups[i])
  {
    if i == 0 {
    } else {
      FirstFaultIs(cfg, groups[1..], i - 1);
    }
  }

  lemma FaultIff(cfg: Config, metas: seq<Meta>, i: nat)
    requires i < |Keys(metas)|
    ensures Fault(cfg, Groups(metas)[i]) ==
            if !Unadmitted(cfg, PackageAt(metas, i)) then None
            else Some(if |PackageAt(metas, i)| > cfg.maxItems then TooManyCards else NoPartnerId)
  {
  }

  /** The first package that is not admitted refuses the request, before any destination or quote is looked at. */
  lemma UnadmittedIsRefused(cfg: Config, now: int, v: Vaults, req: Request, metas: seq<Meta>, i: nat)
    requires i < |Keys(metas)| && Unadmitted(cfg, PackageAt(metas, i)) && NoneUnadmitted(cfg, metas, i)
    ensures EstimateTokens(cfg, now, v, req, Groups(metas)) ==
            Err(if |PackageAt(metas, i)| > cfg.maxItems then TooManyCards else NoPartnerId)
  {
    forall k | 0 <= k <= i ensures Fault(cfg, Groups(metas)[k]).Some? <==> Unadmitted(cfg, PackageAt(metas, k)) {
      FaultIff(cfg, metas, k);
    }
    FaultIff(cfg, metas, i);
    FirstFaultIs(cfg, Groups(metas), i);
  }

  lemma AdmittedHasNoFault(cfg: Config, metas: seq<Meta>)
    requires NoneUnadmitted(cfg, metas, |Keys(metas)|)
    ensures FirstFault(cfg, Groups(metas)).None?
  {
    forall k | 0 <= k < |Keys(metas)| ensures Fault(cfg, Groups(metas)[k]).None? {
      FaultIff(cfg, metas, k);
    }
    FirstFaultIs(cfg, Groups(metas), |Keys(metas)|);
  }

  lemma NeedsQuoteIff(metas: seq<Meta>)
    ensures NeedsQuote(Groups(metas)) <==> AnyPartner(metas)
  {
    var groups := Groups(metas);
    if NeedsQuote(groups) {
      var g :| g in groups && g.ofPartner;
      var i :| 0 <= i < |groups| && groups[i] == g;
      GroupsAreNamed(metas, i);
      KeysAreThoseUsed(metas, Keys(metas)[i]);
      assert g.tokens[0] in g.tokens;
    }
    if AnyPartner(metas) {
      var m :| m in metas && m.policy == SelfVaultHold;
      KeysAreThoseUsed(metas, KeyOf(m));
      var i :| 0 <= i < |Keys(metas)| && Keys(metas)[i] == KeyOf(m);
      GroupsAreNamed(metas, i);
      PsaKeyIff(m);
      PsaKeyIff(groups[i].tokens[0]);
      assert groups[i] in groups;
    }
  }

  /** Then a partner package needs a destination country, given and recognised. */
  lemma DestinationIsRefused(cfg: Config, now: int, v: Vaults, req: Request, metas: seq<Meta>)
    requires NoneUnadmitted(cfg, metas, |Keys(metas)|) && AnyPartner(metas) && !req.destination.Iso?
    ensures EstimateTokens(cfg, now, v, req, Groups(metas)) ==
            Err(if req.destination.NoShipTo? then NoDestination else UnknownCountry)
  {
    AdmittedHasNoFault(cfg, metas);
    NeedsQuoteIff(metas);
  }

  lemma {:induction false} FirstRefusalIs(
      cfg: Config, country: Country, now: int, v: Vaults, groups: seq<Group>, i: nat)
    requires i < |groups| && forall k :: 0 <= k < i ==> ShipmentOf(cfg, country, now, v, groups[k]).Ok?
    requires ShipmentOf(cfg, country, now, v, groups[i]).Err?
    ensures ShipAll(cfg, country, now, v, groups) == Err(ShipmentOf(cfg, country, now, v, groups[i]).error)
  {
    ShipsIff(cfg, country, now, v, groups[..i]);
    assert groups[..i + 1][..i] == groups[..i];
    FirstRefusalStays(cfg, country, now, v, groups, i + 1);
  }

  lemma QuoteIff(cfg: Config, country: Country, now: int, v: Vaults, metas: seq<Meta>, i: nat)
    requires i < |Keys(metas)| && !Unadmitted(cfg, PackageAt(metas, i))
    ensures var shipped := ShipmentOf(cfg, country, now, v, Groups(metas)[i]);
            (shipped.Err? <==> Unquoted(v, PackageAt(metas, i))) &&
            (shipped.Err? ==>
               shipped.error ==
               if PackageAt(metas, i)[0].partner.value !in v.origins then NoCompanyAddress else NoQuote)
  {
    GroupsAreNamed(metas, i);
  }

  /** Last, the first partner package without an address or a quote refuses the request. */
  lemma UnquotedIsRefused(cfg: Config, now: int, v: Vaults, req: Request, metas: seq<Meta>, i: nat)
    requires NoneUnadmitted(cfg, metas, |Keys(metas)|) && req.destination.Iso?
    requires i < |Keys(metas)| && Unquoted(v, PackageAt(metas, i)) && NoneUnquoted(v, metas, i)
    ensures EstimateTokens(cfg, now, v, req, Groups(metas)) ==
            Err(if PackageAt(metas, i)[0].partner.value !in v.origins then NoCompanyAddress else NoQuote)
  {
    AdmittedHasNoFault(cfg, metas);
    forall k | 0 <= k <= i
      ensures ShipmentOf(cfg, req.country, now, v, Groups(metas)[k]).Err? <==> Unquoted(v, PackageAt(metas, k))
    {
      QuoteIff(cfg, req.country, now, v, metas, k);
    }
    QuoteIff(cfg, req.country, now, v, metas, i);
    FirstRefusalIs(cfg, req.country, now, v, Groups(metas), i);
  }

  /** A request with ids needs a chain first, then an index entry for every token; only then are packages formed. */
  lemma RefusedBeforePackages(cfg: Config, now: int, v: Vaults, req: Request)
    requires UniqueIds(req.tokenIds) != []
    ensures var indexed := AllKnown(v) && forall id :: id in UniqueIds(req.tokenIds) ==> MetaOf(v, id).Some?;
            EstimateOf(cfg, now, v, req) ==
            if !req.chain then Err(NoChain) else if !indexed then Err(NotIndexed)
            else EstimateTokens(cfg, now, v, req, Groups(MetasOf(v, req)))
  {
    MetasMatchIds(v, UniqueIds(req.tokenIds));
  }
}
