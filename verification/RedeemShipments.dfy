/**
 Tokens grouped into physical shipments, and the fees of one shipment: the PSA
 vault ships under its published schedule, each partner vault under a quote.
 */
module RedeemShipments {
  import opened Wrappers
  import opened RedeemMoney

  datatype Country = Us | Ca | Intl

  datatype Policy = Standard | SelfVaultHold

  datatype Config = Config(us: real, ca: real, intl: real, retrieval: real, early: real, earlyDays: nat, maxItems: nat)

  datatype Meta = Meta(tokenId: int, policy: Policy, partner: Option<string>, vaultedAt: Option<int>)

  datatype Group = Group(key: string, ofPartner: bool, partner: Option<string>, tokens: seq<Meta>)

  datatype Card = Card(
    tokenId: int, vaultedAt: Option<int>, early: bool,
    retrieval: real, earlyFee: real, shipping: real, total: real, key: string)

  datatype Quote = Quote(shipping: real, expiresAt: int)

  datatype Shipment = Shipment(
    key: string, ofPartner: bool, partner: Option<string>, shipping: real, retrieval: real, earlyFee: real,
    total: real, quoteExpires: Option<int>, cards: seq<Card>)

  const PSA_KEY := "psa_vault"
  const DAY_MS := 86400000

  // ---- Grouping ---------------------------------------------------------------------------------

  /** A partner token without a partner id goes under the name `unknown`. */
  function KeyOf(m: Meta): string {
    if m.policy == Standard then PSA_KEY else "partner:" + (if m.partner.Some? then m.partner.value else "unknown")
  }

  /** The shipments' keys, in order of first appearance. */
  function Keys(metas: seq<Meta>): seq<string> {
    if metas == [] then []
    else
      var keys := Keys(metas[..|metas| - 1]);
      var key := KeyOf(metas[|metas| - 1]);
      if key in keys then keys else keys + [key]
  }

  /** The tokens of one shipment, in request order. */
  function TokensOf(metas: seq<Meta>, key: string): seq<Meta> {
    if metas == [] then []
    else
      var front := TokensOf(metas[..|metas| - 1], key);
      if KeyOf(metas[|metas| - 1]) == key then front + [metas[|metas| - 1]] else front
  }

  /** The shipment is named after its first token. */
  function GroupOf(key: string, tokens: seq<Meta>): Group {
    var ofPartner := tokens != [] && tokens[0].policy == SelfVaultHold;
    Group(key, ofPartner, if ofPartner then tokens[0].partner else None, tokens)
  }

  function Groups(metas: seq<Meta>): seq<Group> {
    seq(|Keys(metas)|, i requires 0 <= i < |Keys(metas)| => GroupOf(Keys(metas)[i], TokensOf(metas, Keys(metas)[i])))
  }

  lemma {:induction false} KeysAreThoseUsed(metas: seq<Meta>, key: string)
    ensures key in Keys(metas) <==> TokensOf(metas, key) != []
    ensures forall m :: m in TokensOf(metas, key) <==> m in metas && KeyOf(m) == key
  {
    if metas == [] {
    } else {
      var front, last := metas[..|metas| - 1], metas[|metas| - 1];
      KeysAreThoseUsed(front, key);
      assert metas == front + [last];
      assert KeyOf(last) in Keys(metas);
    }
  }

  lemma {:induction false} KeysAreDistinct(metas: seq<Meta>)
    ensures forall i, j :: 0 <= i < j < |Keys(metas)| ==> Keys(metas)[i] != Keys(metas)[j]
  {
    if metas == [] {
    } else {
      KeysAreDistinct(metas[..|metas| - 1]);
    }
  }

  /** The insertion-ordered map of groups, filled one token at a time. */
  method GroupTokens(metas: seq<Meta>) returns (groups: seq<Group>)
    ensures groups == Groups(metas)
  {
    var keys: seq<string>, byKey: map<string, Group> := [], map[];
    for i := 0 to |metas|
      invariant keys == Keys(metas[..i])
      invariant forall k :: k in byKey <==> k in keys
      invariant forall k :: k in byKey ==> byKey[k] == GroupOf(k, TokensOf(metas[..i], k))
    {
      var m := metas[i];
      var key := KeyOf(m);
      assert metas[..i + 1][..i] == metas[..i];
      KeysAreThoseUsed(metas[..i], key);
      var g := if key in byKey then byKey[key]
               else Group(key, m.policy == SelfVaultHold, if m.policy == SelfVaultHold then m.partner else None, []);
      byKey := byKey[key := g.(tokens := g.tokens + [m])];
      keys := if key in keys then keys else keys + [key];
    }
    assert metas[..|metas|] == metas;
    groups := seq(|keys|, i requires 0 <= i < |keys| && keys[i] in byKey => byKey[keys[i]]);
  }

  /** The tokens whose key is among `keys`. */
  function Among(metas: seq<Meta>, keys: seq<string>): seq<Meta> {
    if metas == [] then []
    else
      var front := Among(metas[..|metas| - 1], keys);
      if KeyOf(metas[|metas| - 1]) in keys then front + [metas[|metas| - 1]] else front
  }

  lemma {:induction false} AmongOneMore(metas: seq<Meta>, keys: seq<string>, key: string)
    requires key !in keys
    ensures multiset(Among(metas, keys + [key])) == multiset(Among(metas, keys)) + multiset(TokensOf(metas, key))
  {
    if metas == [] {
    } else {
      AmongOneMore(metas[..|metas| - 1], keys, key);
    }
  }

  lemma {:induction false} AmongAll(metas: seq<Meta>, keys: seq<string>)
    requires forall m :: m in metas ==> KeyOf(m) in keys
    ensures Among(metas, keys) == metas
  {
    if metas == [] {
    } else {
      assert metas == metas[..|metas| - 1] + [metas[|metas| - 1]];
      AmongAll(metas[..|metas| - 1], keys);
    }
  }

  function GroupedTokens(groups: seq<Group>): seq<Meta> {
    if groups == [] then [] else GroupedTokens(groups[..|groups| - 1]) + groups[|groups| - 1].tokens
  }

  lemma GroupedOneMore(groups: seq<Group>, n: nat)
    requires 0 < n <= |groups|
    ensures GroupedTokens(groups[..n]) == GroupedTokens(groups[..n - 1]) + groups[n - 1].tokens
  {
    assert groups[..n][..n - 1] == groups[..n - 1];
  }

  lemma {:induction false} GroupsCollect(metas: seq<Meta>, n: nat)
    requires n <= |Keys(metas)|
    ensures multiset(GroupedTokens(Groups(metas)[..n])) == multiset(Among(metas, Keys(metas)[..n]))
  {
    var keys, groups := Keys(metas), Groups(metas);
    if n == 0 {
      AmongNone(metas);
    } else {
      GroupsCollect(metas, n - 1);
      KeysAreDistinct(metas);
      AmongOneMore(metas, keys[..n - 1], keys[n - 1]);
      assert keys[..n] == keys[..n - 1] + [keys[n - 1]];
      GroupedOneMore(groups, n);
    }
  }

  lemma {:induction false} AmongNone(metas: seq<Meta>)
    ensures Among(metas, []) == []
  {
    if metas == [] {
    } else {
      AmongNone(metas[..|metas| - 1]);
    }
  }

  /** Nothing is lost and nothing is doubled: together the groups hold exactly the tokens. */
  lemma GroupsPartition(metas: seq<Meta>)
    ensures multiset(GroupedTokens(Groups(metas))) == multiset(metas)
  {
    forall m | m in metas ensures KeyOf(m) in Keys(metas) {
      KeysAreThoseUsed(metas, KeyOf(m));
    }
    GroupsCollect(metas, |Keys(metas)|);
    AmongAll(metas, Keys(metas));
    assert Keys(metas)[..|Keys(metas)|] == Keys(metas) && Groups(metas)[..|Keys(metas)|] == Groups(metas);
  }

  // ---- The PSA vault's published schedule --------------------------------------------------------

  function PsaShippingUsd(cfg: Config, country: Country): real {
    match country case Us => cfg.us case Ca => cfg.ca case Intl => cfg.intl
  }

  /** A card vaulted less than `earlyDays` ago, or at a day nobody recorded, pays the early fee. */
  predicate IsPsaEarlyWithdrawal(deposited: Option<int>, earlyDays: nat, now: int) {
    deposited.None? || now - deposited.value < earlyDays * DAY_MS
  }

  function PsaCard(cfg: Config, country: Country, now: int, m: Meta, first: bool): Card {
    var early := IsPsaEarlyWithdrawal(m.vaultedAt, cfg.earlyDays, now);
    var earlyFee := if early then cfg.early else 0.0;
    var shipping := if first then PsaShippingUsd(cfg, country) else 0.0;
    Card(m.tokenId, m.vaultedAt, early, cfg.retrieval, earlyFee, shipping,
         RoundUsd(cfg.retrieval + earlyFee + shipping), PSA_KEY)
  }

  function PsaCards(cfg: Config, country: Country, now: int, tokens: seq<Meta>): (cards: seq<Card>)
    ensures |cards| == |tokens|
    ensures forall i :: 0 <= i < |cards| ==> cards[i] == PsaCard(cfg, country, now, tokens[i], i == 0)
  {
    if tokens == [] then []
    else
      PsaCards(cfg, country, now, tokens[..|tokens| - 1]) +
      [PsaCard(cfg, country, now, tokens[|tokens| - 1], |tokens| == 1)]
  }

  function EarlyCards(cards: seq<Card>): nat {
    if cards == [] then 0 else EarlyCards(cards[..|cards| - 1]) + if cards[|cards| - 1].early then 1 else 0
  }

  function Retrieval(c: Card): real { c.retrieval }

  function EarlyFee(c: Card): real { c.earlyFee }

  function Shipping(c: Card): real { c.shipping }

  function CardTotal(c: Card): real { c.total }

  /** What the schedule charges for a package: shipping once, retrieval a card, the early fee an early card. */
  function PsaShipmentOf(cfg: Config, country: Country, now: int, g: Group): Shipment {
    var cards := PsaCards(cfg, country, now, g.tokens);
    var shipping := if cards == [] then 0.0 else RoundUsd(PsaShippingUsd(cfg, country));
    var retrieval := RoundUsd(Times(cfg.retrieval, |cards|));
    var earlyFee := RoundUsd(Times(cfg.early, EarlyCards(cards)));
    Shipment(g.key, false, None, shipping, retrieval, earlyFee, shipping + retrieval + earlyFee, None, cards)
  }

  /** Cards charged as the schedule charges them: the same retrieval, the early fee when early, shipping once. */
  predicate Charged(cards: seq<Card>, retrieval: real, early: real, shipping: real) {
    forall i :: 0 <= i < |cards| ==>
      cards[i].retrieval == retrieval && cards[i].earlyFee == (if cards[i].early then early else 0.0) &&
      cards[i].shipping == if i == 0 then shipping else 0.0
  }

  lemma PsaCardsAreCharged(cfg: Config, country: Country, now: int, tokens: seq<Meta>)
    ensures Charged(PsaCards(cfg, country, now, tokens), cfg.retrieval, cfg.early, PsaShippingUsd(cfg, country))
  {
  }

  /** The three columns of a package. */
  lemma {:induction false} ColumnSums(cards: seq<Card>, retrieval: real, early: real, shipping: real)
    requires Charged(cards, retrieval, early, shipping)
    ensures SumOf(cards, Retrieval) == Times(retrieval, |cards|)
    ensures SumOf(cards, EarlyFee) == Times(early, EarlyCards(cards))
    ensures SumOf(cards, Shipping) == if cards == [] then 0.0 else shipping
  {
    if cards == [] {
    } else {
      ColumnSums(cards[..|cards| - 1], retrieval, early, shipping);
    }
  }

  lemma PsaCardsOneMore(cfg: Config, country: Country, now: int, tokens: seq<Meta>, i: nat)
    requires i < |tokens|
    ensures PsaCards(cfg, country, now, tokens[..i + 1]) ==
            PsaCards(cfg, country, now, tokens[..i]) + [PsaCard(cfg, country, now, tokens[i], i == 0)]
  {
    assert tokens[..i + 1][..i] == tokens[..i];
  }

  lemma EarlyCardsOneMore(cards: seq<Card>, card: Card)
    ensures EarlyCards(cards + [card]) == EarlyCards(cards) + if card.early then 1 else 0
  {
    assert (cards + [card])[..|cards|] == cards;
  }

  method PsaCardLines(cfg: Config, country: Country, now: int, tokens: seq<Meta>)
    returns (cards: seq<Card>, earlyCount: nat)
    ensures cards == PsaCards(cfg, country, now, tokens)
    ensures earlyCount == EarlyCards(cards)
  {
    cards, earlyCount := [], 0;
    for i := 0 to |tokens|
      invariant cards == PsaCards(cfg, country, now, tokens[..i])
      invariant earlyCount == EarlyCards(cards)
    {
      var card := PsaCard(cfg, country, now, tokens[i], i == 0);
      PsaCardsOneMore(cfg, country, now, tokens, i);
      EarlyCardsOneMore(cards, card);
      if card.early {
        earlyCount := earlyCount + 1;
      }
      cards := cards + [card];
    }
    assert tokens[..|tokens|] == tokens;
  }

  /** The PSA branch: card lines first, then the three columns summed and rounded, then their sum rounded. */
  method PsaShipment(cfg: Config, country: Country, now: int, g: Group) returns (sh: Shipment, earlyCount: nat)
    ensures sh == PsaShipmentOf(cfg, country, now, g)
    ensures earlyCount == EarlyCards(sh.cards)
  {
    var cards;
    cards, earlyCount := PsaCardLines(cfg, country, now, g.tokens);
    PsaCardsAreCharged(cfg, country, now, g.tokens);
    ColumnSums(cards, cfg.retrieval, cfg.early, PsaShippingUsd(cfg, country));
    var shipping := SumOf(cards, Shipping);
    var retrieval := RoundUsd(SumOf(cards, Retrieval));
    var earlyFee := RoundUsd(SumOf(cards, EarlyFee));
    PackageTotal(shipping, SumOf(cards, Retrieval), SumOf(cards, EarlyFee));
    sh := Shipment(g.key, false, None, RoundUsd(shipping), retrieval, earlyFee,
                   RoundUsd(shipping + retrieval + earlyFee), None, cards);
  }

  /** Rounding once at the end agrees with adding rounded parts. */
  lemma PackageTotal(shipping: real, x: real, y: real)
    ensures RoundUsd(shipping + RoundUsd(x) + RoundUsd(y)) == RoundUsd(shipping) + RoundUsd(x) + RoundUsd(y)
    ensures RoundUsd(0.0) == 0.0
  {
    RoundingShifts(0.0, 0);
    RoundingShifts(shipping + RoundUsd(x), Cents(y));
    RoundingShifts(shipping, Cents(x));
  }

  // ---- Partner vaults ----------------------------------------------------------------------------

  function PartnerCard(quote: Quote, key: string, m: Meta, first: bool): Card {
    var shipping := if first then quote.shipping else 0.0;
    Card(m.tokenId, m.vaultedAt, false, 0.0, 0.0, shipping, RoundUsd(shipping), key)
  }

  function PartnerShipment(quote: Quote, g: Group): Shipment {
    var cards := seq(|g.tokens|, i requires 0 <= i < |g.tokens| => PartnerCard(quote, g.key, g.tokens[i], i == 0));
    var shipping := RoundUsd(quote.shipping);
    Shipment(g.key, true, g.partner, shipping, 0.0, 0.0, shipping, Some(quote.expiresAt), cards)
  }

  // ---- Cards against their shipment ---------------------------------------------------------------

  function Unrounded(c: Card): real { c.retrieval + c.earlyFee + c.shipping }

  function Fees(c: Card): real { c.retrieval + c.earlyFee }

  lemma UnroundedSum(cfg: Config, country: Country, now: int, tokens: seq<Meta>)
    ensures var cards := PsaCards(cfg, country, now, tokens);
            SumOf(cards, Unrounded) == SumOf(cards, Retrieval) + SumOf(cards, EarlyFee) + SumOf(cards, Shipping)
  {
    var cards := PsaCards(cfg, country, now, tokens);
    SumAdds(cards, Retrieval, EarlyFee, Fees);
    SumAdds(cards, Fees, Shipping, Unrounded);
  }

  /** The package total against the same three sums, unrounded. */
  lemma PackageNear(cfg: Config, country: Country, now: int, g: Group)
    ensures var sh := PsaShipmentOf(cfg, country, now, g);
            -0.015 <= sh.total - SumOf(sh.cards, Unrounded) <= 0.015
  {
    var cards := PsaCards(cfg, country, now, g.tokens);
    UnroundedSum(cfg, country, now, g.tokens);
    PsaCardsAreCharged(cfg, country, now, g.tokens);
    ColumnSums(cards, cfg.retrieval, cfg.early, PsaShippingUsd(cfg, country));
    RoundingIsNear(SumOf(cards, Retrieval));
    RoundingIsNear(SumOf(cards, EarlyFee));
    RoundingIsNear(PsaShippingUsd(cfg, country));
  }

  /** The card lines of an n-card PSA package add up to within (n + 3) / 2 cents of its total. */
  lemma PsaCardsAddUp(cfg: Config, country: Country, now: int, g: Group)
    ensures var sh := PsaShipmentOf(cfg, country, now, g);
            var slack := 0.005 * (|sh.cards| + 3) as real;
            -slack <= SumOf(sh.cards, CardTotal) - sh.total <= slack
  {
    var n := |PsaCards(cfg, country, now, g.tokens)|;
    PackageNear(cfg, country, now, g);
    SumIsNear(PsaCards(cfg, country, now, g.tokens), Unrounded, CardTotal);
    assert 0.005 * (n + 3) as real == 0.005 * n as real + 0.015;
  }

  predicate WholeSchedule(cfg: Config, country: Country) {
    WholeCents(cfg.retrieval) && WholeCents(cfg.early) && WholeCents(PsaShippingUsd(cfg, country))
  }

  lemma WholeCard(cfg: Config, country: Country, now: int, m: Meta, first: bool)
    requires WholeSchedule(cfg, country)
    ensures var c := PsaCard(cfg, country, now, m, first);
            c.total == Unrounded(c) && WholeCents(Retrieval(c)) && WholeCents(EarlyFee(c)) && WholeCents(Shipping(c))
  {
    var c := PsaCard(cfg, country, now, m, first);
    RoundingShifts(0.0, 0);
    WholeCentsAdd(c.retrieval + c.earlyFee, c.shipping);
    WholeCentsAdd(c.retrieval, c.earlyFee);
  }

  lemma {:induction false} SumsAgree(cards: seq<Card>)
    requires forall c :: c in cards ==> c.total == Unrounded(c)
    ensures SumOf(cards, CardTotal) == SumOf(cards, Unrounded)
  {
    if cards == [] {
    } else {
      SumsAgree(cards[..|cards| - 1]);
      assert cards[|cards| - 1] in cards;
    }
  }

  /** With a schedule in whole cents the card lines add up to the package total exactly. */
  lemma WholeScheduleAddsUp(cfg: Config, country: Country, now: int, g: Group)
    requires WholeSchedule(cfg, country)
    ensures SumOf(PsaShipmentOf(cfg, country, now, g).cards, CardTotal) == PsaShipmentOf(cfg, country, now, g).total
  {
    var cards := PsaCards(cfg, country, now, g.tokens);
    forall c | c in cards
      ensures c.total == Unrounded(c) && WholeCents(Retrieval(c)) && WholeCents(EarlyFee(c))
    {
      var i :| 0 <= i < |cards| && cards[i] == c;
      WholeCard(cfg, country, now, g.tokens[i], i == 0);
    }
    SumsAgree(cards);
    SumIsWholeCents(cards, Retrieval);
    SumIsWholeCents(cards, EarlyFee);
    UnroundedSum(cfg, country, now, g.tokens);
    PsaCardsAreCharged(cfg, country, now, g.tokens);
    ColumnSums(cards, cfg.retrieval, cfg.early, PsaShippingUsd(cfg, country));
  }

  /** A partner package's cards add up exactly, whatever the quote. */
  lemma PartnerCardsAddUp(quote: Quote, g: Group)
    requires g.tokens != []
    ensures SumOf(PartnerShipment(quote, g).cards, CardTotal) == PartnerShipment(quote, g).total
  {
    var cards := PartnerShipment(quote, g).cards;
    RoundingShifts(0.0, 0);
    FirstCardPays(cards, |cards|);
    assert cards[..|cards|] == cards;
  }

  lemma {:induction false} FirstCardPays(cards: seq<Card>, n: nat)
    requires 0 < n <= |cards| && forall i :: 0 < i < |cards| ==> cards[i].total == 0.0
    ensures SumOf(cards[..n], CardTotal) == cards[0].total
  {
    assert cards[..n][..n - 1] == cards[..n - 1];
    if n > 1 {
      FirstCardPays(cards, n - 1);
    }
  }
}
