/**
 The redeem estimate: ids to tokens, tokens to shipments, shipments to totals.
 Custody rows, deposit dates, partner addresses and carrier quotes are inputs;
 one request has one destination and one clock reading.
 */
module RedeemEstimate {
  import opened Wrappers
  import opened RedeemMoney
  import opened RedeemShipments

  datatype Row = Row(tokenId: int, known: bool, policy: Option<Policy>, partner: Option<string>)

  /** Partners with a company address, and what the carrier quotes a partner for a package count. */
  datatype Vaults = Vaults(
    custody: seq<Row>, deposits: map<int, int>, origins: set<string>, quotes: map<(string, nat), Quote>)

  datatype Destination = NoShipTo | BadCountry | Iso(code: string)

  datatype Request = Request(
    country: Country, cardCount: Option<real>, tokenIds: seq<real>, chain: bool, destination: Destination)

  datatype Refusal =
    | NoChain | NotIndexed | TooManyCards | NoPartnerId | NoDestination | UnknownCountry | NoCompanyAddress | NoQuote

  datatype Estimate = Estimate(
    cardCount: nat, shipping: real, earlyCount: nat, retrieval: real, earlyFee: real, withdraw: real,
    withdrawPerCard: real, total: real, micros: int, cards: seq<Card>, shipments: seq<Shipment>,
    quoteExpires: Option<int>)

  // ---- Ids and tokens ----------------------------------------------------------------------------

  /** Positive whole ids, each once, in the order they first appear. */
  function UniqueIds(tokenIds: seq<real>): seq<int> {
    if tokenIds == [] then []
    else
      var front := UniqueIds(tokenIds[..|tokenIds| - 1]);
      var id := tokenIds[|tokenIds| - 1].Floor;
      if id > 0 && id !in front then front + [id] else front
  }

  lemma {:induction false} UniqueIdsAreThePositiveOnes(tokenIds: seq<real>)
    ensures forall id :: id in UniqueIds(tokenIds) <==> id > 0 && exists t :: t in tokenIds && t.Floor == id
    ensures forall i, j :: 0 <= i < j < |UniqueIds(tokenIds)| ==> UniqueIds(tokenIds)[i] != UniqueIds(tokenIds)[j]
  {
    if tokenIds == [] {
    } else {
      var front, last := tokenIds[..|tokenIds| - 1], tokenIds[|tokenIds| - 1];
      UniqueIdsAreThePositiveOnes(front);
      assert tokenIds == front + [last];
    }
  }

  function FindRow(custody: seq<Row>, id: int): Option<Row> {
    if custody == [] then None
    else if custody[0].tokenId == id then Some(custody[0])
    else FindRow(custody[1..], id)
  }

  function MetaOf(v: Vaults, id: int): Option<Meta> {
    match FindRow(v.custody, id)
    case Some(Row(_, true, Some(policy), partner)) =>
      Some(Meta(id, policy, partner, if id in v.deposits then Some(v.deposits[id]) else None))
    case _ => None
  }

  function Metas(v: Vaults, ids: seq<int>): Option<seq<Meta>> {
    if ids == [] then Some([])
    else
      match (Metas(v, ids[..|ids| - 1]), MetaOf(v, ids[|ids| - 1]))
      case (Some(front), Some(m)) => Some(front + [m])
      case _ => None
  }

  function Ids(metas: seq<Meta>): seq<int> { seq(|metas|, i requires 0 <= i < |metas| => metas[i].tokenId) }

  lemma {:induction false} MetasMatchIds(v: Vaults, ids: seq<int>)
    ensures Metas(v, ids).Some? <==> forall id :: id in ids ==> MetaOf(v, id).Some?
    ensures Metas(v, ids).Some? ==> Ids(Metas(v, ids).value) == ids
  {
    if ids == [] {
    } else {
      MetasMatchIds(v, ids[..|ids| - 1]);
      assert ids == ids[..|ids| - 1] + [ids[|ids| - 1]];
    }
  }

  // ---- Admission ---------------------------------------------------------------------------------

  function Fault(cfg: Config, g: Group): Option<Refusal> {
    if |g.tokens| > cfg.maxItems then Some(TooManyCards)
    else if g.ofPartner && (g.partner == None || g.partner == Some("")) then Some(NoPartnerId)
    else None
  }

  function FirstFault(cfg: Config, groups: seq<Group>): Option<Refusal> {
    if groups == [] then None
    else if Fault(cfg, groups[0]).Some? then Fault(cfg, groups[0])
    else FirstFault(cfg, groups[1..])
  }

  method CheckGroups(cfg: Config, groups: seq<Group>) returns (r: Option<Refusal>)
    ensures r == FirstFault(cfg, groups)
    ensures r.None? <==> forall g :: g in groups ==> Fault(cfg, g).None?
  {
    for i := 0 to |groups|
      invariant FirstFault(cfg, groups) == FirstFault(cfg, groups[i..])
      invariant forall g :: g in groups[..i] ==> Fault(cfg, g).None?
    {
      r := Fault(cfg, groups[i]);
      if r.Some? {
        return;
      }
      assert groups[..i + 1] == groups[..i] + [groups[i]];
      assert groups[i..][1..] == groups[i + 1..];
    }
    assert groups[..|groups|] == groups;
    r := None;
  }

  predicate NeedsQuote(groups: seq<Group>) { exists g :: g in groups && g.ofPartner }

  function DestinationFault(req: Request, groups: seq<Group>): Option<Refusal> {
    if !NeedsQuote(groups) || req.destination.Iso? then None
    else if req.destination.NoShipTo? then Some(NoDestination)
    else Some(UnknownCountry)
  }

  // ---- Shipments and totals ------------------------------------------------------------------------

  function ShipmentOf(cfg: Config, country: Country, now: int, v: Vaults, g: Group): Result<Shipment, Refusal> {
    if !g.ofPartner then Ok(PsaShipmentOf(cfg, country, now, g))
    else if g.partner.None? then Err(NoPartnerId)
    else if g.partner.value !in v.origins then Err(NoCompanyAddress)
    else if (g.partner.value, |g.tokens|) !in v.quotes then Err(NoQuote)
    else Ok(PartnerShipment(v.quotes[(g.partner.value, |g.tokens|)], g))
  }

  function ShipAll(cfg: Config, country: Country, now: int, v: Vaults, groups: seq<Group>)
    : Result<seq<Shipment>, Refusal>
  {
    if groups == [] then Ok([])
    else
      match ShipAll(cfg, country, now, v, groups[..|groups| - 1])
      case Err(e) => Err(e)
      case Ok(front) =>
        match ShipmentOf(cfg, country, now, v, groups[|groups| - 1])
        case Err(e) => Err(e)
        case Ok(sh) => Ok(front + [sh])
  }

  function AllCards(shipments: seq<Shipment>): seq<Card> {
    if shipments == [] then [] else AllCards(shipments[..|shipments| - 1]) + shipments[|shipments| - 1].cards
  }

  /** The first quote to run out. */
  function Earliest(shipments: seq<Shipment>): Option<int> {
    if shipments == [] then None
    else Sooner(Earliest(shipments[..|shipments| - 1]), shipments[|shipments| - 1].quoteExpires)
  }

  function Sooner(a: Option<int>, b: Option<int>): Option<int> {
    if a.None? then b else if b.Some? && b.value < a.value then b else a
  }

  function ShippingOf(sh: Shipment): real { sh.shipping }

  function RetrievalOf(sh: Shipment): real { sh.retrieval }

  function EarlyFeeOf(sh: Shipment): real { sh.earlyFee }

  function WithdrawOf(sh: Shipment): real { sh.retrieval + sh.earlyFee }

  function TotalOf(sh: Shipment): real { sh.total }

  /** What an estimate should say: plain sums over its shipments, with no rounding but the per-card average. */
  function Priced(shipments: seq<Shipment>): Estimate {
    var cards := AllCards(shipments);
    var withdraw := SumOf(shipments, WithdrawOf);
    var total := SumOf(shipments, TotalOf);
    Estimate(|cards|, SumOf(shipments, ShippingOf), EarlyCards(cards), SumOf(shipments, RetrievalOf),
             SumOf(shipments, EarlyFeeOf), withdraw, RoundUsd(withdraw / (if |cards| == 0 then 1 else |cards|) as real),
             total, 10000 * Cents(total), cards, shipments, Earliest(shipments))
  }

  predicate Balanced(sh: Shipment) {
    WholeCents(sh.shipping) && WholeCents(sh.retrieval) && WholeCents(sh.earlyFee) && WholeCents(sh.total) &&
    sh.total == sh.shipping + sh.retrieval + sh.earlyFee
  }

  lemma AddedCentsAreWhole(x: real, y: real)
    requires WholeCents(x) && WholeCents(y)
    ensures WholeCents(x + y)
  {
    WholeCentsAdd(x, y);
  }

  lemma PsaIsBalanced(cfg: Config, country: Country, now: int, g: Group)
    ensures Balanced(PsaShipmentOf(cfg, country, now, g))
  {
    var sh := PsaShipmentOf(cfg, country, now, g);
    RoundingShifts(0.0, 0);
    RoundingIsNear(PsaShippingUsd(cfg, country));
    RoundingIsNear(Times(cfg.retrieval, |sh.cards|));
    RoundingIsNear(Times(cfg.early, EarlyCards(sh.cards)));
    AddedCentsAreWhole(sh.shipping, sh.retrieval);
    AddedCentsAreWhole(sh.shipping + sh.retrieval, sh.earlyFee);
  }

  lemma {:induction false} ShippedAreBalanced(cfg: Config, country: Country, now: int, v: Vaults, groups: seq<Group>)
    requires ShipAll(cfg, country, now, v, groups).Ok?
    ensures forall sh :: sh in ShipAll(cfg, country, now, v, groups).value ==> Balanced(sh)
  {
    if groups == [] {
    } else {
      var g := groups[|groups| - 1];
      ShippedAreBalanced(cfg, country, now, v, groups[..|groups| - 1]);
      if !g.ofPartner {
        PsaIsBalanced(cfg, country, now, g);
      } else {
        RoundingShifts(0.0, 0);
        RoundingIsNear(v.quotes[(g.partner.value, |g.tokens|)].shipping);
      }
    }
  }

  /** The five sums over balanced shipments are whole cents and agree with each other. */
  lemma TotalsAgree(shipments: seq<Shipment>)
    requires forall sh :: sh in shipments ==> Balanced(sh)
    ensures var e := Priced(shipments);
            e.total == e.shipping + e.withdraw && e.withdraw == e.retrieval + e.earlyFee &&
            WholeCents(e.shipping) && WholeCents(e.retrieval) && WholeCents(e.earlyFee) && WholeCents(e.withdraw) &&
            WholeCents(e.total) && Usd(Cents(e.total)) == e.total
  {
    SumAdds(shipments, RetrievalOf, EarlyFeeOf, WithdrawOf);
    SumAdds(shipments, ShippingOf, WithdrawOf, TotalOf);
    SumIsWholeCents(shipments, ShippingOf);
    SumIsWholeCents(shipments, RetrievalOf);
    SumIsWholeCents(shipments, EarlyFeeOf);
    SumIsWholeCents(shipments, TotalOf);
    AddedCentsAreWhole(SumOf(shipments, RetrievalOf), SumOf(shipments, EarlyFeeOf));
  }

  /** The last block of the calculator: five roundings, none of which moves anything. */
  method Totals(shipments: seq<Shipment>, cards: seq<Card>, earlyCount: nat, expires: Option<int>) returns (e: Estimate)
    requires forall sh :: sh in shipments ==> Balanced(sh)
    requires cards == AllCards(shipments) && earlyCount == EarlyCards(cards) && expires == Earliest(shipments)
    ensures e == Priced(shipments)
  {
    TotalsAgree(shipments);
    var shipping := RoundUsd(SumOf(shipments, ShippingOf));
    var retrieval := RoundUsd(SumOf(shipments, RetrievalOf));
    var earlyFee := RoundUsd(SumOf(shipments, EarlyFeeOf));
    var withdraw := RoundUsd(retrieval + earlyFee);
    var total := RoundUsd(shipping + withdraw);
    var perCard := RoundUsd(withdraw / (if |cards| == 0 then 1 else |cards|) as real);
    MicrosAreCents(total);
    e := Estimate(|cards|, shipping, earlyCount, retrieval, earlyFee, withdraw, perCard, total,
                  UsdToUsdcMicros(total), cards, shipments, expires);
  }

  lemma {:induction false} EarlyCardsAdd(a: seq<Card>, b: seq<Card>)
    ensures EarlyCards(a + b) == EarlyCards(a) + EarlyCards(b)
  {
    if b == [] {
      assert a + b == a;
    } else {
      EarlyCardsAdd(a, b[..|b| - 1]);
      assert (a + b)[..|a + b| - 1] == a + b[..|b| - 1];
    }
  }

  lemma {:induction false} NoPartnerCardIsEarly(quote: Quote, g: Group, n: nat)
    requires n <= |g.tokens|
    ensures EarlyCards(PartnerShipment(quote, g).cards[..n]) == 0
  {
    if n == 0 {
    } else {
      NoPartnerCardIsEarly(quote, g, n - 1);
      var cards := PartnerShipment(quote, g).cards;
      assert cards[..n][..n - 1] == cards[..n - 1];
    }
  }

  lemma ShipOneMore(cfg: Config, country: Country, now: int, v: Vaults, groups: seq<Group>, i: nat)
    requires i < |groups| && ShipAll(cfg, country, now, v, groups[..i]).Ok?
    ensures ShipAll(cfg, country, now, v, groups[..i + 1]) ==
            match ShipmentOf(cfg, country, now, v, groups[i])
            case Err(e) => Err(e)
            case Ok(sh) => Ok(ShipAll(cfg, country, now, v, groups[..i]).value + [sh])
  {
    assert groups[..i + 1][..i] == groups[..i];
  }

  lemma CollectOneMore(shipments: seq<Shipment>, sh: Shipment)
    ensures AllCards(shipments + [sh]) == AllCards(shipments) + sh.cards
    ensures Earliest(shipments + [sh]) == Sooner(Earliest(shipments), sh.quoteExpires)
  {
    assert (shipments + [sh])[..|shipments|] == shipments;
  }

  /** The pricing loop over the groups, accumulating cards, early cards and the earliest expiry. */
  method PriceGroups(cfg: Config, country: Country, now: int, v: Vaults, groups: seq<Group>)
    returns (r: Result<Estimate, Refusal>)
    ensures r.Err? <==> ShipAll(cfg, country, now, v, groups).Err?
    ensures r.Err? ==> r.error == ShipAll(cfg, country, now, v, groups).error
    ensures r.Ok? ==> r.value == Priced(ShipAll(cfg, country, now, v, groups).value)
  {
    var shipments: seq<Shipment>, cards: seq<Card>, earlyCount: nat := [], [], 0;
    var expires: Option<int> := None;
    for i := 0 to |groups|
      invariant ShipAll(cfg, country, now, v, groups[..i]) == Ok(shipments)
      invariant cards == AllCards(shipments) && earlyCount == EarlyCards(cards) && expires == Earliest(shipments)
    {
      var g := groups[i];
      ShipOneMore(cfg, country, now, v, groups, i);
      var sh: Shipment;
      if !g.ofPartner {
        var early;
        sh, early := PsaShipment(cfg, country, now, g);
        earlyCount := earlyCount + early;
      } else {
        var next := ShipmentOf(cfg, country, now, v, g);
        if next.Err? {
          FirstRefusalStays(cfg, country, now, v, groups, i + 1);
          return Err(next.error);
        }
        sh := next.value;
        NoPartnerCardIsEarly(v.quotes[(g.partner.value, |g.tokens|)], g, |g.tokens|);
        assert sh.cards[..|g.tokens|] == sh.cards;
        expires := Sooner(expires, sh.quoteExpires);
      }
      EarlyCardsAdd(cards, sh.cards);
      CollectOneMore(shipments, sh);
      shipments, cards := shipments + [sh], cards + sh.cards;
    }
    assert groups[..|groups|] == groups;
    ShippedAreBalanced(cfg, country, now, v, groups);
    var e := Totals(shipments, cards, earlyCount, expires);
    r := Ok(e);
  }

  lemma {:induction false} FirstRefusalStays(
      cfg: Config, country: Country, now: int, v: Vaults, groups: seq<Group>, i: nat)
    requires i <= |groups| && ShipAll(cfg, country, now, v, groups[..i]).Err?
    ensures ShipAll(cfg, country, now, v, groups) == ShipAll(cfg, country, now, v, groups[..i])
    decreases |groups| - i
  {
    if i < |groups| {
      assert groups[..i + 1][..i] == groups[..i];
      FirstRefusalStays(cfg, country, now, v, groups, i + 1);
    } else {
      assert groups[..i] == groups;
    }
  }

  // ---- By card count only --------------------------------------------------------------------------

  function CountOf(cfg: Config, cardCount: real): nat {
    var wanted := if cardCount.Floor > 1 then cardCount.Floor else 1;
    if wanted < cfg.maxItems then wanted else cfg.maxItems
  }

  /** `n` unnamed cards of unknown age. */
  function Blank(n: nat): seq<Meta> { seq(n, _ => Meta(0, Standard, None, None)) }

  /** A count is priced as one PSA package of that many cards of unknown age. */
  function CountOnly(cfg: Config, country: Country, now: int, n: nat): Estimate {
    Priced([PsaShipmentOf(cfg, country, now, Group(PSA_KEY, false, None, Blank(n)))])
  }

  lemma {:induction false} BlankCardsAreEarly(cfg: Config, country: Country, now: int, n: nat)
    ensures EarlyCards(PsaCards(cfg, country, now, Blank(n))) == n
  {
    if n == 0 {
    } else {
      BlankCardsAreEarly(cfg, country, now, n - 1);
      assert Blank(n)[..n - 1] == Blank(n - 1);
    }
  }

  lemma OneShipment(sh: Shipment)
    ensures AllCards([sh]) == sh.cards && Earliest([sh]) == sh.quoteExpires
    ensures SumOf([sh], ShippingOf) == sh.shipping && SumOf([sh], RetrievalOf) == sh.retrieval
    ensures SumOf([sh], EarlyFeeOf) == sh.earlyFee && SumOf([sh], WithdrawOf) == sh.retrieval + sh.earlyFee
    ensures SumOf([sh], TotalOf) == sh.total
  {
    assert [sh][..0] == [];
  }

  /** One package from its three unrounded columns. */
  function Package(shipping: real, retrieval: real, earlyFee: real, cards: seq<Card>): Shipment {
    Shipment(PSA_KEY, false, None, RoundUsd(shipping), RoundUsd(retrieval), RoundUsd(earlyFee),
             RoundUsd(shipping) + RoundUsd(retrieval) + RoundUsd(earlyFee), None, cards)
  }

  /** Charging by multiplication and rounding at each step, for one package. */
  method CountTotals(shipping: real, retrievalSum: real, earlySum: real, earlyCount: nat, cards: seq<Card>)
    returns (e: Estimate)
    requires earlyCount == EarlyCards(cards)
    ensures e == Priced([Package(shipping, retrievalSum, earlySum, cards)])
  {
    var retrieval := RoundUsd(retrievalSum);
    var earlyFee := RoundUsd(earlySum);
    var withdraw := RoundUsd(retrieval + earlyFee);
    assert withdraw == retrieval + earlyFee by {
      PackageTotal(0.0, retrievalSum, earlySum);
    }
    var total := RoundUsd(shipping + withdraw);
    assert total == RoundUsd(shipping) + retrieval + earlyFee by {
      PackageTotal(shipping, retrievalSum, earlySum);
      assert shipping + withdraw == shipping + retrieval + earlyFee;
    }
    MicrosAreCents(total);
    var shipment := Shipment(PSA_KEY, false, None, RoundUsd(shipping), retrieval, earlyFee, total, None, cards);
    OneShipment(shipment);
    e := Estimate(|cards|, RoundUsd(shipping), earlyCount, retrieval, earlyFee, withdraw,
                  RoundUsd(withdraw / (if |cards| == 0 then 1 else |cards|) as real), total, UsdToUsdcMicros(total),
                  cards, [shipment], None);
  }

  lemma BlankPackage(cfg: Config, country: Country, now: int, n: nat)
    ensures var cards := PsaCards(cfg, country, now, Blank(n));
            PsaShipmentOf(cfg, country, now, Group(PSA_KEY, false, None, Blank(n))) ==
            Package(SumOf(cards, Shipping), Times(cfg.retrieval, n), Times(cfg.early, n), cards)
  {
    BlankCardsAreEarly(cfg, country, now, n);
    PsaCardsAreCharged(cfg, country, now, Blank(n));
    ColumnSums(PsaCards(cfg, country, now, Blank(n)), cfg.retrieval, cfg.early, PsaShippingUsd(cfg, country));
    RoundingShifts(0.0, 0);
  }

  method EstimatePsaOnlyCardCount(cfg: Config, country: Country, now: int, cardCount: real) returns (e: Estimate)
    ensures e == CountOnly(cfg, country, now, CountOf(cfg, cardCount))
  {
    var count := CountOf(cfg, cardCount);
    var cards, earlyCount := PsaCardLines(cfg, country, now, Blank(count));
    BlankCardsAreEarly(cfg, country, now, count);
    var retrieval := Multiply(cfg.retrieval, count);
    var earlyFee := Multiply(cfg.early, earlyCount);
    BlankPackage(cfg, country, now, count);
    e := CountTotals(SumOf(cards, Shipping), retrieval, earlyFee, earlyCount, cards);
  }

  // ---- The whole estimate --------------------------------------------------------------------------

  predicate AllKnown(v: Vaults) { forall row :: row in v.custody ==> row.known }

  /** The groups' own admission in the calculator's order, then the shipments priced as plain sums. */
  function EstimateTokens(cfg: Config, now: int, v: Vaults, req: Request, groups: seq<Group>)
    : Result<Estimate, Refusal>
  {
    if FirstFault(cfg, groups).Some? then Err(FirstFault(cfg, groups).value)
    else if DestinationFault(req, groups).Some? then Err(DestinationFault(req, groups).value)
    else
      match ShipAll(cfg, req.country, now, v, groups)
      case Err(e) => Err(e)
      case Ok(shipments) => Ok(Priced(shipments))
  }

  /** A count alone is priced as PSA cards; ids need a chain and an index entry each. */
  function EstimateOf(cfg: Config, now: int, v: Vaults, req: Request): Result<Estimate, Refusal> {
    var ids := UniqueIds(req.tokenIds);
    if ids == [] then
      Ok(CountOnly(cfg, req.country, now, CountOf(cfg, if req.cardCount.Some? then req.cardCount.value else 1.0)))
    else if !req.chain then Err(NoChain)
    else if !AllKnown(v) || Metas(v, ids).None? then Err(NotIndexed)
    else EstimateTokens(cfg, now, v, req, Groups(Metas(v, ids).value))
  }

  method EstimateRedeem(cfg: Config, now: int, v: Vaults, req: Request) returns (r: Result<Estimate, Refusal>)
    ensures r == EstimateOf(cfg, now, v, req)
  {
    var ids := UniqueIds(req.tokenIds);
    if ids == [] {
      var count := if req.cardCount.Some? then req.cardCount.value else 1.0;
      var e := EstimatePsaOnlyCardCount(cfg, req.country, now, count);
      return Ok(e);
    }
    if !req.chain {
      return Err(NoChain);
    }
    if !AllKnown(v) {
      return Err(NotIndexed);
    }
    var metas := Metas(v, ids);
    if metas.None? {
      return Err(NotIndexed);
    }
    var groups := GroupTokens(metas.value);
    var fault := CheckGroups(cfg, groups);
    if fault.Some? {
      return Err(fault.value);
    }
    if DestinationFault(req, groups).Some? {
      return Err(DestinationFault(req, groups).value);
    }
    r := PriceGroups(cfg, req.country, now, v, groups);
  }
}
