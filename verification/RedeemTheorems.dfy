/** What an accepted redeem estimate guarantees, for every request, schedule and set of quotes. */
module RedeemTheorems {
  import opened Wrappers
  import opened RedeemMoney
  import opened RedeemShipments
  import opened RedeemEstimate

  /**
   The total is the exact sum of the shipment totals, and of the fees shown beside
   it, although rounding happens at three levels; on chain it is 10000 micros a cent.
   */
  lemma TotalIsTheSumOfShipments(cfg: Config, now: int, v: Vaults, req: Request)
    requires EstimateOf(cfg, now, v, req).Ok?
    ensures var e := EstimateOf(cfg, now, v, req).value;
            e.total == SumOf(e.shipments, TotalOf) && e.total == e.shipping + e.retrieval + e.earlyFee &&
            WholeCents(e.total) && WholeCents(e.shipping) && WholeCents(e.retrieval) && WholeCents(e.earlyFee) &&
            e.micros == 10000 * Cents(e.total) && e.micros as real == 1000000.0 * e.total
  {
    var e := EstimateOf(cfg, now, v, req).value;
    if UniqueIds(req.tokenIds) == [] {
      var n := CountOf(cfg, if req.cardCount.Some? then req.cardCount.value else 1.0);
      PsaIsBalanced(cfg, req.country, now, Group(PSA_KEY, false, None, Blank(n)));
    } else {
      ShippedAreBalanced(cfg, req.country, now, v, Groups(MetasOf(v, req)));
    }
    TotalsAgree(e.shipments);
  }

  lemma {:induction false} EachShipmentIsItsGroups(
      cfg: Config, country: Country, now: int, v: Vaults, groups: seq<Group>)
    requires ShipAll(cfg, country, now, v, groups).Ok?
    ensures var shipments := ShipAll(cfg, country, now, v, groups).value;
            |shipments| == |groups| &&
            forall i :: 0 <= i < |groups| ==> ShipmentOf(cfg, country, now, v, groups[i]) == Ok(shipments[i])
  {
    if groups == [] {
    } else {
      EachShipmentIsItsGroups(cfg, country, now, v, groups[..|groups| - 1]);
    }
  }

  // ---- Partition -----------------------------------------------------------------------------------

  function CardIds(cards: seq<Card>): seq<int> { seq(|cards|, i requires 0 <= i < |cards| => cards[i].tokenId) }

  lemma ShipmentCarriesItsGroup(cfg: Config, country: Country, now: int, v: Vaults, g: Group)
    requires ShipmentOf(cfg, country, now, v, g).Ok?
    ensures CardIds(ShipmentOf(cfg, country, now, v, g).value.cards) == Ids(g.tokens)
  {
  }

  lemma IdsOfMore(a: seq<Meta>, b: seq<Meta>)
    ensures Ids(a + b) == Ids(a) + Ids(b)
  {
  }

  lemma CardIdsOfMore(before: seq<Shipment>, sh: Shipment)
    ensures CardIds(AllCards(before + [sh])) == CardIds(AllCards(before)) + CardIds(sh.cards)
  {
    assert (before + [sh])[..|before|] == before;
    assert CardIds(AllCards(before) + sh.cards) == CardIds(AllCards(before)) + CardIds(sh.cards);
  }

  lemma {:induction false} CardsCarryTheGroups(cfg: Config, country: Country, now: int, v: Vaults, groups: seq<Group>)
    requires ShipAll(cfg, country, now, v, groups).Ok?
    ensures CardIds(AllCards(ShipAll(cfg, country, now, v, groups).value)) == Ids(GroupedTokens(groups))
  {
    if groups == [] {
    } else {
      var front, g := groups[..|groups| - 1], groups[|groups| - 1];
      CardsCarryTheGroups(cfg, country, now, v, front);
      ShipmentCarriesItsGroup(cfg, country, now, v, g);
      CardIdsOfMore(ShipAll(cfg, country, now, v, front).value, ShipmentOf(cfg, country, now, v, g).value);
      IdsOfMore(GroupedTokens(front), g.tokens);
      assert groups[|groups| - 1] == g;
    }
  }

  function Without(b: seq<Meta>, i: nat): seq<Meta>
    requires i < |b|
  {
    b[..i] + b[i + 1..]
  }

  lemma WithoutOne(b: seq<Meta>, i: nat)
    requires i < |b|
    ensures multiset(b) == multiset(Without(b, i)) + multiset{b[i]}
    ensures multiset(Ids(b)) == multiset(Ids(Without(b, i))) + multiset{b[i].tokenId}
  {
    assert b == b[..i] + [b[i]] + b[i + 1..];
    assert Ids(b) == Ids(b[..i]) + [b[i].tokenId] + Ids(b[i + 1..]);
    assert Ids(Without(b, i)) == Ids(b[..i]) + Ids(b[i + 1..]);
  }

  lemma {:induction false} SameTokensSameIds(a: seq<Meta>, b: seq<Meta>)
    requires multiset(a) == multiset(b)
    ensures multiset(Ids(a)) == multiset(Ids(b))
  {
    if a == [] {
      assert |b| == |multiset(a)|;
    } else {
      assert a[0] in multiset(b);
      var i :| 0 <= i < |b| && b[i] == a[0];
      WithoutOne(a, 0);
      WithoutOne(b, i);
      assert Without(a, 0) == a[1..];
      assert multiset(a[1..]) == multiset(a) - multiset{a[0]} == multiset(Without(b, i));
      SameTokensSameIds(a[1..], Without(b, i));
    }
  }

  /** Every distinct positive id the request names is on exactly one card line, and nothing else is. */
  lemma EveryTokenIsChargedOnce(cfg: Config, now: int, v: Vaults, req: Request)
    ensures EstimateOf(cfg, now, v, req).Ok? && UniqueIds(req.tokenIds) != [] ==>
            var e := EstimateOf(cfg, now, v, req).value;
            multiset(CardIds(e.cards)) == multiset(UniqueIds(req.tokenIds)) &&
            e.cardCount == |UniqueIds(req.tokenIds)| && e.cards == AllCards(e.shipments)
  {
    var ids := UniqueIds(req.tokenIds);
    if EstimateOf(cfg, now, v, req).Ok? && ids != [] {
      var metas := Metas(v, ids).value;
      MetasMatchIds(v, ids);
      CardsCarryTheGroups(cfg, req.country, now, v, Groups(metas));
      GroupsPartition(metas);
      SameTokensSameIds(GroupedTokens(Groups(metas)), metas);
      var e := EstimateOf(cfg, now, v, req).value;
      assert |multiset(CardIds(e.cards))| == |multiset(ids)|;
    }
  }

  lemma {:induction false} Multiplicity(shipments: seq<Shipment>, id: int, i: nat, j: nat)
    requires i < |shipments| && id in CardIds(shipments[i].cards)
    requires j < |shipments| && id in CardIds(shipments[j].cards)
    ensures multiset(CardIds(AllCards(shipments)))[id] >= if i == j then 1 else 2
    decreases |shipments|
  {
    var last := |shipments| - 1;
    var front := shipments[..last];
    assert CardIds(AllCards(shipments)) == CardIds(AllCards(front)) + CardIds(shipments[last].cards);
    if i < last && j < last {
      Multiplicity(front, id, i, j);
    } else if i < last {
      Multiplicity(front, id, i, i);
    } else if j < last {
      Multiplicity(front, id, j, j);
    }
  }

  lemma {:induction false} DistinctMeansOnce(ids: seq<int>, id: int)
    requires forall i, j :: 0 <= i < j < |ids| ==> ids[i] != ids[j]
    ensures multiset(ids)[id] == if id in ids then 1 else 0
  {
    if ids == [] {
    } else {
      DistinctMeansOnce(ids[..|ids| - 1], id);
      assert ids == ids[..|ids| - 1] + [ids[|ids| - 1]];
    }
  }

  predicate Carries(shipments: seq<Shipment>, i: nat, id: int) {
    i < |shipments| && id in CardIds(shipments[i].cards)
  }

  /** No token is in two shipments. */
  lemma ShipmentsAreDisjoint(cfg: Config, now: int, v: Vaults, req: Request, id: int, i: nat, j: nat)
    ensures EstimateOf(cfg, now, v, req).Ok? && UniqueIds(req.tokenIds) != [] ==>
            var shipments := EstimateOf(cfg, now, v, req).value.shipments;
            Carries(shipments, i, id) && Carries(shipments, j, id) ==> i == j
  {
    EveryTokenIsChargedOnce(cfg, now, v, req);
    UniqueIdsAreThePositiveOnes(req.tokenIds);
    DistinctMeansOnce(UniqueIds(req.tokenIds), id);
    if EstimateOf(cfg, now, v, req).Ok? {
      InTwoMeansTwice(EstimateOf(cfg, now, v, req).value.shipments, id, i, j);
    }
  }

  lemma InTwoMeansTwice(shipments: seq<Shipment>, id: int, i: nat, j: nat)
    ensures Carries(shipments, i, id) && Carries(shipments, j, id) && i != j ==>
              multiset(CardIds(AllCards(shipments)))[id] >= 2
  {
    if Carries(shipments, i, id) && Carries(shipments, j, id) {
      Multiplicity(shipments, id, i, j);
    }
  }

  // ---- One shipment at a time ----------------------------------------------------------------------

  /** A package's card lines: the first carries the whole shipping charge, and their totals stay near the package's. */
  predicate CardsMatchPackage(sh: Shipment) {
    sh.cards != [] && sh.shipping == RoundUsd(sh.cards[0].shipping) &&
    (forall i :: 0 < i < |sh.cards| ==> sh.cards[i].shipping == 0.0) &&
    (forall c :: c in sh.cards ==> c.key == sh.key) &&
    -0.005 * (|sh.cards| + 3) as real <= SumOf(sh.cards, CardTotal) - sh.total <= 0.005 * (|sh.cards| + 3) as real
  }

  lemma ShipmentMatchesItsCards(cfg: Config, country: Country, now: int, v: Vaults, g: Group)
    requires ShipmentOf(cfg, country, now, v, g).Ok? && g.tokens != [] && (!g.ofPartner ==> g.key == PSA_KEY)
    ensures CardsMatchPackage(ShipmentOf(cfg, country, now, v, g).value)
  {
    if g.ofPartner {
      PartnerCardsAddUp(v.quotes[(g.partner.value, |g.tokens|)], g);
    } else {
      PsaCardsAddUp(cfg, country, now, g);
    }
  }

  lemma GroupsAreNamed(metas: seq<Meta>, i: nat)
    requires i < |Groups(metas)|
    ensures var g := Groups(metas)[i];
            g.tokens != [] && g.key == KeyOf(g.tokens[0]) && (g.ofPartner <==> g.tokens[0].policy == SelfVaultHold) &&
            (g.ofPartner ==> g.partner == g.tokens[0].partner)
  {
    var key := Keys(metas)[i];
    KeysAreThoseUsed(metas, key);
    assert TokensOf(metas, key)[0] in TokensOf(metas, key);
  }

  /** In every accepted estimate, every shipment is balanced with its own card lines. */
  lemma ShipmentsMatchTheirCards(cfg: Config, now: int, v: Vaults, req: Request, i: nat)
    ensures EstimateOf(cfg, now, v, req).Ok? && UniqueIds(req.tokenIds) != [] &&
            i < |EstimateOf(cfg, now, v, req).value.shipments| ==>
              CardsMatchPackage(EstimateOf(cfg, now, v, req).value.shipments[i])
  {
    if EstimateOf(cfg, now, v, req).Ok? && UniqueIds(req.tokenIds) != [] {
      var metas := Metas(v, UniqueIds(req.tokenIds)).value;
      EachShipmentIsItsGroups(cfg, req.country, now, v, Groups(metas));
      if i < |Groups(metas)| {
        GroupsAreNamed(metas, i);
        ShipmentMatchesItsCards(cfg, req.country, now, v, Groups(metas)[i]);
      }
    }
  }

  // ---- Which requests are accepted ------------------------------------------------------------------

  /** One package the calculator can price. */
  predicate CanShip(cfg: Config, v: Vaults, req: Request, metas: seq<Meta>, key: string) {
    var tokens := TokensOf(metas, key);
    |tokens| <= cfg.maxItems &&
    (tokens != [] && tokens[0].policy == SelfVaultHold ==>
       req.destination.Iso? && tokens[0].partner.Some? && tokens[0].partner.value != "" &&
       tokens[0].partner.value in v.origins && (tokens[0].partner.value, |tokens|) in v.quotes)
  }

  lemma {:induction false} ShipsIff(cfg: Config, country: Country, now: int, v: Vaults, groups: seq<Group>)
    ensures ShipAll(cfg, country, now, v, groups).Ok? <==>
            forall g :: g in groups ==> ShipmentOf(cfg, country, now, v, g).Ok?
  {
    if groups == [] {
    } else {
      ShipsIff(cfg, country, now, v, groups[..|groups| - 1]);
      assert groups == groups[..|groups| - 1] + [groups[|groups| - 1]];
    }
  }

  lemma {:induction false} NoFaultIff(cfg: Config, groups: seq<Group>)
    ensures FirstFault(cfg, groups).None? <==> forall g :: g in groups ==> Fault(cfg, g).None?
  {
    if groups == [] {
    } else {
      NoFaultIff(cfg, groups[1..]);
      assert groups == [groups[0]] + groups[1..];
    }
  }

  predicate GroupShips(cfg: Config, country: Country, now: int, v: Vaults, req: Request, g: Group) {
    Fault(cfg, g).None? && (g.ofPartner ==> req.destination.Iso?) && ShipmentOf(cfg, country, now, v, g).Ok?
  }

  lemma OneGroupShipsIff(
      cfg: Config, country: Country, now: int, v: Vaults, req: Request, metas: seq<Meta>, i: nat)
    requires i < |Groups(metas)|
    ensures var g := Groups(metas)[i];
            g.tokens != [] && g.tokens[0] in metas && g.key == KeyOf(g.tokens[0]) &&
            (GroupShips(cfg, country, now, v, req, g) <==> CanShip(cfg, v, req, metas, g.key))
  {
    GroupsAreNamed(metas, i);
    KeysAreThoseUsed(metas, Keys(metas)[i]);
    assert Groups(metas)[i].tokens[0] in Groups(metas)[i].tokens;
  }

  predicate AllCanShip(cfg: Config, v: Vaults, req: Request, metas: seq<Meta>) {
    forall m :: m in metas ==> CanShip(cfg, v, req, metas, KeyOf(m))
  }

  lemma AllGroupsShipIff(cfg: Config, country: Country, now: int, v: Vaults, req: Request, metas: seq<Meta>)
    ensures (forall g :: g in Groups(metas) ==> GroupShips(cfg, country, now, v, req, g)) <==>
            AllCanShip(cfg, v, req, metas)
  {
    var groups := Groups(metas);
    forall i | 0 <= i < |groups|
      ensures groups[i].tokens != [] && groups[i].tokens[0] in metas && groups[i].key == KeyOf(groups[i].tokens[0])
      ensures GroupShips(cfg, country, now, v, req, groups[i]) <==> CanShip(cfg, v, req, metas, groups[i].key)
    {
      OneGroupShipsIff(cfg, country, now, v, req, metas, i);
    }
    forall m | m in metas ensures exists i :: 0 <= i < |groups| && groups[i].key == KeyOf(m) {
      KeysAreThoseUsed(metas, KeyOf(m));
      var i :| 0 <= i < |Keys(metas)| && Keys(metas)[i] == KeyOf(m);
      assert groups[i].key == KeyOf(m);
    }
  }

  lemma TokensAcceptedIff(cfg: Config, now: int, v: Vaults, req: Request, groups: seq<Group>)
    ensures EstimateTokens(cfg, now, v, req, groups).Ok? <==>
            forall g :: g in groups ==> GroupShips(cfg, req.country, now, v, req, g)
  {
    ShipsIff(cfg, req.country, now, v, groups);
    NoFaultIff(cfg, groups);
  }

  /** The tokens of a request as far as they are all indexed. */
  function MetasOf(v: Vaults, req: Request): seq<Meta> {
    var metas := Metas(v, UniqueIds(req.tokenIds));
    if metas.Some? then metas.value else []
  }

  /** A request with tokens is accepted exactly when every one is indexed and every package can ship. */
  lemma AcceptedIff(cfg: Config, now: int, v: Vaults, req: Request)
    ensures EstimateOf(cfg, now, v, req).Ok? <==>
            var ids := UniqueIds(req.tokenIds);
            ids == [] ||
            (req.chain && AllKnown(v) && (forall id :: id in ids ==> MetaOf(v, id).Some?) &&
             AllCanShip(cfg, v, req, MetasOf(v, req)))
  {
    var ids := UniqueIds(req.tokenIds);
    MetasMatchIds(v, ids);
    if Metas(v, ids).Some? {
      var metas := Metas(v, ids).value;
      TokensAcceptedIff(cfg, now, v, req, Groups(metas));
      AllGroupsShipIff(cfg, req.country, now, v, req, metas);
    }
  }

  const UNKNOWN := "unknown"
  const UNKNOWN_KEY := "partner:" + UNKNOWN

  lemma UnknownKey(o: Meta)
    requires KeyOf(o) == UNKNOWN_KEY
    ensures o.policy == SelfVaultHold && (o.partner == None || o.partner == Some(UNKNOWN))
  {
    assert PSA_KEY[1] == 's' && UNKNOWN_KEY[1] == 'a';
    assert UNKNOWN_KEY[|"partner:"|..] == UNKNOWN;
    if o.partner.Some? {
      assert KeyOf(o)[|"partner:"|..] == o.partner.value;
    }
  }

  /**
   A partner token with no partner id falls under the key of a partner called
   `unknown`, and the package is judged by its first token: it can ship exactly
   when that first token does name a partner `unknown` whose package can ship.
   */
  lemma NamelessShipsIff(cfg: Config, v: Vaults, req: Request, metas: seq<Meta>, m: Meta)
    requires m in metas && m.policy == SelfVaultHold && m.partner.None?
    ensures KeyOf(m) == UNKNOWN_KEY && TokensOf(metas, UNKNOWN_KEY) != []
    ensures var tokens := TokensOf(metas, UNKNOWN_KEY);
            CanShip(cfg, v, req, metas, KeyOf(m)) <==>
            tokens[0].partner == Some(UNKNOWN) && |tokens| <= cfg.maxItems && req.destination.Iso? &&
            UNKNOWN in v.origins && (UNKNOWN, |tokens|) in v.quotes
  {
    KeysAreThoseUsed(metas, UNKNOWN_KEY);
    var first := TokensOf(metas, UNKNOWN_KEY)[0];
    assert first in TokensOf(metas, UNKNOWN_KEY);
    UnknownKey(first);
  }

  lemma {:induction false} FoundInCustody(custody: seq<Row>, id: int)
    ensures FindRow(custody, id).Some? ==> FindRow(custody, id).value in custody
  {
    if custody == [] {
    } else if custody[0].tokenId != id {
      FoundInCustody(custody[1..], id);
    }
  }

  /** Every token comes from a custody row and carries that row's partner; every id found is among the tokens. */
  lemma {:induction false} TokensAreRows(v: Vaults, ids: seq<int>)
    requires Metas(v, ids).Some?
    ensures forall m :: m in Metas(v, ids).value ==> exists row :: row in v.custody && row.partner == m.partner
    ensures forall id :: id in ids ==> MetaOf(v, id).Some? && MetaOf(v, id).value in Metas(v, ids).value
  {
    if ids == [] {
    } else {
      var front, last := ids[..|ids| - 1], ids[|ids| - 1];
      assert ids == front + [last];
      TokensAreRows(v, front);
      FoundInCustody(v.custody, last);
    }
  }

  /**
   Partner ids are uuids, so no row names a partner `unknown`; then a request with a
   partner token that has no partner id is always refused, whatever travels with it.
   */
  lemma NamelessIsRefused(cfg: Config, now: int, v: Vaults, req: Request, id: int)
    requires forall row :: row in v.custody ==> row.partner != Some(UNKNOWN)
    requires id in UniqueIds(req.tokenIds) && MetaOf(v, id).Some?
    requires MetaOf(v, id).value.policy == SelfVaultHold && MetaOf(v, id).value.partner.None?
    ensures EstimateOf(cfg, now, v, req).Err?
  {
    AcceptedIff(cfg, now, v, req);
    var ids := UniqueIds(req.tokenIds);
    if Metas(v, ids).Some? {
      var metas, m := Metas(v, ids).value, MetaOf(v, id).value;
      TokensAreRows(v, ids);
      NamelessShipsIff(cfg, v, req, metas, m);
      KeysAreThoseUsed(metas, UNKNOWN_KEY);
      var first := TokensOf(metas, UNKNOWN_KEY)[0];
      assert first in TokensOf(metas, UNKNOWN_KEY) && first in metas;
    }
  }

  // ---- The two paths agree ---------------------------------------------------------------------------

  function Unnamed(cards: seq<Card>): seq<Card> {
    seq(|cards|, i requires 0 <= i < |cards| => cards[i].(tokenId := 0))
  }

  lemma {:induction false} AllStandardIsOneGroup(metas: seq<Meta>)
    requires metas != [] && forall m :: m in metas ==> m.policy == Standard
    ensures Keys(metas) == [PSA_KEY] && TokensOf(metas, PSA_KEY) == metas
  {
    var front, last := metas[..|metas| - 1], metas[|metas| - 1];
    assert metas == front + [last];
    if front == [] {
    } else {
      AllStandardIsOneGroup(front);
    }
  }

  lemma {:induction false} UnnamedAreEarlyAlike(cards: seq<Card>)
    ensures EarlyCards(Unnamed(cards)) == EarlyCards(cards)
  {
    if cards == [] {
    } else {
      UnnamedAreEarlyAlike(cards[..|cards| - 1]);
      assert Unnamed(cards)[..|cards| - 1] == Unnamed(cards[..|cards| - 1]);
    }
  }

  /**
   PSA tokens of unknown age are priced exactly as the same number of unnamed
   cards: both paths give one estimate, up to the token ids.
   */
  lemma CountOnlyAgrees(cfg: Config, now: int, v: Vaults, req: Request)
    ensures EstimateOf(cfg, now, v, req).Ok? && UniqueIds(req.tokenIds) != [] && AllAgelessPsa(v, req) ==>
            var e := EstimateOf(cfg, now, v, req).value;
            var n := |UniqueIds(req.tokenIds)|;
            |e.shipments| == 1 && CountOf(cfg, n as real) == n &&
            CountOnly(cfg, req.country, now, n) ==
            e.(cards := Unnamed(e.cards), shipments := [e.shipments[0].(cards := Unnamed(e.cards))])
  {
    var ids := UniqueIds(req.tokenIds);
    if EstimateOf(cfg, now, v, req).Ok? && ids != [] && AllAgelessPsa(v, req) {
      var metas := Metas(v, ids).value;
      MetasMatchIds(v, ids);
      assert |metas| == |Ids(metas)| == |ids|;
      AllStandardGroups(metas);
      OnePackage(cfg, now, v, req, Group(PSA_KEY, false, None, metas));
      SamePackage(cfg, req.country, now, metas);
    }
  }

  /** Every token is in the PSA vault, and nobody recorded when it was deposited. */
  predicate AllAgelessPsa(v: Vaults, req: Request) {
    var metas := Metas(v, UniqueIds(req.tokenIds));
    metas.Some? && forall m :: m in metas.value ==> m.policy == Standard && m.vaultedAt == None
  }

  lemma AllStandardGroups(metas: seq<Meta>)
    requires metas != [] && forall m :: m in metas ==> m.policy == Standard
    ensures Groups(metas) == [Group(PSA_KEY, false, None, metas)]
  {
    AllStandardIsOneGroup(metas);
    assert metas[0] in metas;
    assert GroupOf(PSA_KEY, metas) == Group(PSA_KEY, false, None, metas);
  }

  lemma OnePackage(cfg: Config, now: int, v: Vaults, req: Request, g: Group)
    requires EstimateTokens(cfg, now, v, req, [g]).Ok? && !g.ofPartner
    ensures |g.tokens| <= cfg.maxItems
    ensures EstimateTokens(cfg, now, v, req, [g]) == Ok(Priced([PsaShipmentOf(cfg, req.country, now, g)]))
  {
    assert [g][..0] == [] && ShipAll(cfg, req.country, now, v, []) == Ok([]);
    assert ShipAll(cfg, req.country, now, v, [g][..0]) == Ok([]);
    assert ShipAll(cfg, req.country, now, v, [g]).Ok?;
    assert [] + [PsaShipmentOf(cfg, req.country, now, g)] == [PsaShipmentOf(cfg, req.country, now, g)];
    assert Fault(cfg, g).None?;
  }

  /** Token ids do not enter any amount. */
  lemma RenamingKeepsAmounts(sh: Shipment)
    ensures var e := Priced([sh]);
            var unnamed := sh.(cards := Unnamed(sh.cards));
            Priced([unnamed]) == e.(cards := Unnamed(e.cards), shipments := [unnamed]) &&
            e.shipments == [sh] && e.cards == sh.cards
  {
    var unnamed := sh.(cards := Unnamed(sh.cards));
    UnnamedAreEarlyAlike(sh.cards);
    OneShipment(sh);
    OneShipment(unnamed);
    assert |unnamed.cards| == |sh.cards|;
    assert SumOf([unnamed], WithdrawOf) == SumOf([sh], WithdrawOf) && SumOf([unnamed], TotalOf) == SumOf([sh], TotalOf);
  }

  lemma SamePackage(cfg: Config, country: Country, now: int, metas: seq<Meta>)
    requires forall m :: m in metas ==> m.vaultedAt == None
    ensures var sh := PsaShipmentOf(cfg, country, now, Group(PSA_KEY, false, None, metas));
            var e := Priced([sh]);
            CountOnly(cfg, country, now, |metas|) ==
            e.(cards := Unnamed(e.cards), shipments := [sh.(cards := Unnamed(e.cards))]) && e.shipments == [sh]
  {
    BlankShipment(cfg, country, now, metas);
    RenamingKeepsAmounts(PsaShipmentOf(cfg, country, now, Group(PSA_KEY, false, None, metas)));
  }

  lemma BlankShipment(cfg: Config, country: Country, now: int, metas: seq<Meta>)
    requires forall m :: m in metas ==> m.vaultedAt == None
    ensures var sh := PsaShipmentOf(cfg, country, now, Group(PSA_KEY, false, None, metas));
            PsaShipmentOf(cfg, country, now, Group(PSA_KEY, false, None, Blank(|metas|))) ==
            sh.(cards := Unnamed(sh.cards))
  {
    BlankCards(cfg, country, now, metas);
    UnnamedAreEarlyAlike(PsaCards(cfg, country, now, metas));
  }

  lemma BlankCards(cfg: Config, country: Country, now: int, metas: seq<Meta>)
    requires forall m :: m in metas ==> m.vaultedAt == None
    ensures PsaCards(cfg, country, now, Blank(|metas|)) == Unnamed(PsaCards(cfg, country, now, metas))
  {
    var blank, cards := PsaCards(cfg, country, now, Blank(|metas|)), PsaCards(cfg, country, now, metas);
    forall i | 0 <= i < |metas| ensures blank[i] == cards[i].(tokenId := 0) {
      BlankCard(cfg, country, now, metas[i], i == 0);
    }
  }

  lemma BlankCard(cfg: Config, country: Country, now: int, m: Meta, first: bool)
    requires m.vaultedAt == None
    ensures PsaCard(cfg, country, now, Meta(0, Standard, None, None), first) ==
            PsaCard(cfg, country, now, m, first).(tokenId := 0)
  {
  }
}
