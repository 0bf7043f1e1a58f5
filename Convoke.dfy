/**
 * The convoke / improvise payment negotiation
 * (forge-gui/src/main/java/forge/gamemodes/match/input/InputSelectCardsForConvokeOrImprovise.java).
 *
 * The player clicks untapped cards; each click either rejects the card,
 * unselects a chosen card and refunds the shard it paid, or works out a
 * color mask for the card and asks the cost ledger to pay one shard with it.
 *
 * The ledger (ManaCostBeingPaid) is a multiset of shards still owed. Which
 * shard it pays for a mask is its own rule and is an oracle here (`Pick`);
 * the only thing assumed of that rule is that it pays a shard still owed.
 * The color prompt of the player's controller is an oracle too (`ColorPrompt`).
 */
module Convoke {
  import opened Wrappers

  datatype Color = White | Blue | Black | Red | Green

  /** A color mask (the byte masks of ColorSet), as the set of its colors. */
  type Mask = set<Color>

  /** The mask of the colorless shard: no colored bit. */
  const COLORLESS: Mask := {}

  /** One unit of a mana cost. */
  datatype Shard = Generic | Colored(color: Color) | Colorless

  /** A card, compared by identity, with the colors it has. */
  datatype Card = Card(id: nat, colors: Mask)

  /** The rule by which the ledger picks the shard a mask pays, or None (null). */
  type Pick = (multiset<Shard>, Mask) -> Option<Shard>

  /** chooseColorAllowColorless: the color the player picks among the options. */
  type ColorPrompt = (Card, Mask) -> Mask

  /** The ledger only ever pays a shard that is still owed. */
  ghost predicate SoundPick(pick: Pick)
  {
    forall m: multiset<Shard>, k: Mask :: pick(m, k).Some? ==> pick(m, k).value in m
  }

  predicate IsMulticolor(m: Mask)
  {
    |m| >= 2
  }

  function Min(a: int, b: int): int
  {
    if a < b then a else b
  }

  /** getUnpaidColors: the colors of the colored shards still owed. */
  function UnpaidColors(remaining: multiset<Shard>): (u: Mask)
    ensures forall c :: c in u <==> Colored(c) in remaining
  {
    set s | s in remaining && s.Colored? :: s.color
  }

  lemma IntersectionSize(a: Mask, b: Mask)
    ensures |a * b| <= |a|
  {
    assert a == (a * b) + (a - b);
  }

  /** The mask a click uses: fixed by the rule, or left to the prompt. */
  datatype MaskChoice = Fixed(mask: Mask) | Prompted(options: Mask)

  /**
   * Improvise always pays with the colorless mask. Convoke uses the card's
   * colors; a multicolor card is first cut down to the unpaid colors, and
   * the player is asked only when two or more colors are left.
   */
  function MaskRule(improvise: bool, cardColors: Mask, unpaid: Mask): (c: MaskChoice)
    ensures improvise ==> c == Fixed(COLORLESS)
    ensures !improvise && !IsMulticolor(cardColors) ==> c == Fixed(cardColors)
    ensures !improvise && IsMulticolor(cardColors) && c.Fixed? ==> c.mask == cardColors * unpaid
    ensures c.Prompted? <==> !improvise && IsMulticolor(cardColors * unpaid)
    ensures c.Prompted? ==> c.options == cardColors * unpaid
  {
    IntersectionSize(cardColors, unpaid);
    if improvise then Fixed(COLORLESS)
    else
      var colors := if IsMulticolor(cardColors) then cardColors * unpaid else cardColors;
      if !IsMulticolor(colors) then Fixed(colors) else Prompted(colors)
  }

  /** What stays fixed for one negotiation: the eligible cards, the mode and the two oracles. */
  datatype Config = Config(available: seq<Card>, improvise: bool, pick: Pick, prompt: ColorPrompt)

  /** What a click changes: the chosen cards with the (mask, shard) each paid, and the ledger. */
  datatype Negotiation = Negotiation(chosen: map<Card, (Mask, Shard)>, remaining: multiset<Shard>)

  /** The mask a click on `card` attempts, consulting the prompt only when the rule leaves a choice. */
  function AttemptMask(cfg: Config, card: Card, unpaid: Mask): Mask
  {
    match MaskRule(cfg.improvise, card.colors, unpaid)
    case Fixed(m) => m
    case Prompted(options) => cfg.prompt(card, options)
  }

  /** One click (onCardSelected): the value it returns and the negotiation after it. */
  function Toggle(n: Negotiation, cfg: Config, card: Card): (res: (bool, Negotiation))
    ensures card !in cfg.available ==> res == (false, n)
    ensures !res.0 ==> res.1 == n
    ensures res.1.chosen - {card} == n.chosen - {card}
    ensures card in cfg.available && card in n.chosen ==>
      res.0 && card !in res.1.chosen && res.1.remaining == n.remaining + multiset{n.chosen[card].1}
    ensures card in cfg.available && card !in n.chosen ==>
      var mask := AttemptMask(cfg, card, UnpaidColors(n.remaining));
      var paid := cfg.pick(n.remaining, mask);
      (res.0 <==> paid.Some?) &&
      (paid.Some? ==> card in res.1.chosen && res.1.chosen[card] == (mask, paid.value)
                      && res.1.remaining == n.remaining - multiset{paid.value})
  {
    if card !in cfg.available then (false, n)
    else if card in n.chosen then
      (true, Negotiation(n.chosen - {card}, n.remaining + multiset{n.chosen[card].1}))
    else
      var mask := AttemptMask(cfg, card, UnpaidColors(n.remaining));
      var paid := cfg.pick(n.remaining, mask);
      if paid.None? then (false, n)
      else (true, Negotiation(n.chosen[card := (mask, paid.value)], n.remaining - multiset{paid.value}))
  }

  /** The clicks of the automatic selection, in order. */
  function ToggleAll(n: Negotiation, cfg: Config, cards: seq<Card>): (r: Negotiation)
    decreases |cards|
    // a card that is never clicked keeps its entry, or stays unchosen
    ensures forall c :: c !in cards ==> (c in r.chosen <==> c in n.chosen)
    ensures forall c :: c !in cards && c in n.chosen ==> r.chosen[c] == n.chosen[c]
  {
    if cards == [] then n
    else
      var prev := ToggleAll(n, cfg, cards[..|cards| - 1]);
      var last := cards[|cards| - 1];
      var res := Toggle(prev, cfg, last).1;
      assert forall c :: c !in cards ==> c !in cards[..|cards| - 1] && c != last;
      assert forall c :: c != last ==> (c in res.chosen <==> c in (res.chosen - {last}));
      assert forall c :: c != last ==> (c in prev.chosen <==> c in (prev.chosen - {last}));
      res
  }

  /* ---- what has been paid ---- */

  ghost function PickKey(m: map<Card, (Mask, Shard)>): (k: Card)
    requires m != map[]
    ensures k in m
  {
    var k :| k in m; k
  }

  /** The shards paid by the chosen cards, one per card. */
  ghost function PaidShards(m: map<Card, (Mask, Shard)>): multiset<Shard>
    decreases |m|
  {
    if m == map[] then multiset{}
    else
      var k := PickKey(m);
      assert |(m - {k}).Keys| < |m.Keys| by { assert m.Keys == (m - {k}).Keys + {k}; }
      multiset{m[k].1} + PaidShards(m - {k})
  }

  lemma MapRemoveSize(m: map<Card, (Mask, Shard)>, k: Card)
    requires k in m
    ensures |m - {k}| == |m| - 1
  {
    assert m.Keys == (m - {k}).Keys + {k};
  }

  /** Removing any one chosen card takes exactly its shard out of the paid shards. */
  lemma {:induction false} PaidShardsRemove(m: map<Card, (Mask, Shard)>, k: Card)
    requires k in m
    ensures PaidShards(m) == PaidShards(m - {k}) + multiset{m[k].1}
    decreases |m|
  {
    var j := PickKey(m);
    if j != k {
      var mj, mk := m - {j}, m - {k};
      var rest := mj - {k};
      assert mk - {j} == rest;
      MapRemoveSize(m, j);
      MapRemoveSize(m, k);
      calc {
        PaidShards(m);
        multiset{m[j].1} + PaidShards(mj);
        { PaidShardsRemove(mj, k); }
        multiset{m[j].1} + (PaidShards(rest) + multiset{m[k].1});
        (PaidShards(rest) + multiset{mk[j].1}) + multiset{m[k].1};
        { PaidShardsRemove(mk, j); }
        PaidShards(mk) + multiset{m[k].1};
      }
    }
  }

  /** Each chosen card paid exactly one shard. */
  lemma {:induction false} PaidShardsSize(m: map<Card, (Mask, Shard)>)
    ensures |PaidShards(m)| == |m|
    decreases |m|
  {
    if m != map[] {
      var k := PickKey(m);
      MapRemoveSize(m, k);
      PaidShardsSize(m - {k});
    }
  }

  /**
   * The negotiation invariant: only eligible cards are chosen, and what is
   * still owed plus what the chosen cards paid is the cost the input started with.
   */
  ghost predicate Inv(n: Negotiation, available: seq<Card>, initial: multiset<Shard>)
  {
    && (forall c :: c in n.chosen ==> c in available)
    && n.remaining + PaidShards(n.chosen) == initial
  }

  lemma {:induction false} DistinctCardsBound(s: seq<Card>)
    ensures |set c | c in s| <= |s|
  {
    if s != [] {
      var init := s[..|s| - 1];
      DistinctCardsBound(init);
      assert (set c | c in s) == (set c | c in init) + {s[|s| - 1]};
    }
  }

  lemma SubsetSize(a: set<Card>, b: set<Card>)
    requires a <= b
    ensures |a| <= |b|
  {
    assert b == a + (b - a);
  }

  /** The selection never holds more cards than min(cost CMC, number of untapped cards). */
  lemma SelectionBound(n: Negotiation, available: seq<Card>, initial: multiset<Shard>)
    requires Inv(n, available, initial)
    ensures |n.chosen| <= Min(|initial|, |available|)
  {
    PaidShardsSize(n.chosen);
    DistinctCardsBound(available);
    SubsetSize(n.chosen.Keys, set c | c in available);
  }

  /** Unselecting a chosen card and refunding its shard keeps the invariant. */
  lemma UnselectKeepsInv(n: Negotiation, available: seq<Card>, initial: multiset<Shard>, card: Card)
    requires Inv(n, available, initial) && card in n.chosen
    ensures Inv(Negotiation(n.chosen - {card}, n.remaining + multiset{n.chosen[card].1}), available, initial)
  {
    PaidShardsRemove(n.chosen, card);
  }

  /** Recording an eligible card with a shard still owed, and paying that shard, keeps the invariant. */
  lemma SelectKeepsInv(n: Negotiation, available: seq<Card>, initial: multiset<Shard>, card: Card, entry: (Mask, Shard))
    requires Inv(n, available, initial) && card in available && card !in n.chosen && entry.1 in n.remaining
    ensures Inv(Negotiation(n.chosen[card := entry], n.remaining - multiset{entry.1}), available, initial)
  {
    var chosen' := n.chosen[card := entry];
    assert chosen' - {card} == n.chosen;
    PaidShardsRemove(chosen', card);
  }

  /** A click keeps the invariant, whatever it does. */
  lemma ToggleKeepsInv(n: Negotiation, cfg: Config, card: Card, initial: multiset<Shard>)
    requires SoundPick(cfg.pick)
    requires Inv(n, cfg.available, initial)
    ensures Inv(Toggle(n, cfg, card).1, cfg.available, initial)
  {
    if card in cfg.available {
      if card in n.chosen {
        UnselectKeepsInv(n, cfg.available, initial, card);
      } else {
        var mask := AttemptMask(cfg, card, UnpaidColors(n.remaining));
        var paid := cfg.pick(n.remaining, mask);
        if paid.Some? {
          SelectKeepsInv(n, cfg.available, initial, card, (mask, paid.value));
        }
      }
    }
  }

  /** The automatic selection keeps the invariant. */
  lemma {:induction false} ToggleAllKeepsInv(n: Negotiation, cfg: Config, cards: seq<Card>, initial: multiset<Shard>)
    requires SoundPick(cfg.pick)
    requires Inv(n, cfg.available, initial)
    ensures Inv(ToggleAll(n, cfg, cards), cfg.available, initial)
    decreases |cards|
  {
    if cards != [] {
      ToggleAllKeepsInv(n, cfg, cards[..|cards| - 1], initial);
      ToggleKeepsInv(ToggleAll(n, cfg, cards[..|cards| - 1]), cfg, cards[|cards| - 1], initial);
    }
  }

  /** Selecting a card and clicking it again restores the negotiation exactly. */
  lemma SelectThenDeselect(n: Negotiation, cfg: Config, card: Card)
    requires SoundPick(cfg.pick)
    requires card !in n.chosen
    requires Toggle(n, cfg, card).0
    ensures Toggle(Toggle(n, cfg, card).1, cfg, card) == (true, n)
  {
    var mask := AttemptMask(cfg, card, UnpaidColors(n.remaining));
    var shard := cfg.pick(n.remaining, mask).value;
    assert shard in n.remaining;
    assert n.chosen[card := (mask, shard)] - {card} == n.chosen;
    assert n.remaining - multiset{shard} + multiset{shard} == n.remaining;
  }

  /** In improvise mode every successful click records the colorless mask. */
  lemma ImproviseRecordsColorless(n: Negotiation, cfg: Config, card: Card)
    requires cfg.improvise && card !in n.chosen && Toggle(n, cfg, card).0
    ensures Toggle(n, cfg, card).1.chosen[card].0 == COLORLESS
  {
  }

  /** When the rule fixes the mask (always in improvise mode) the prompt is never consulted. */
  lemma FixedMaskIgnoresPrompt(n: Negotiation, cfg: Config, card: Card, other: ColorPrompt)
    requires MaskRule(cfg.improvise, card.colors, UnpaidColors(n.remaining)).Fixed?
    ensures Toggle(n, cfg, card) == Toggle(n, cfg.(prompt := other), card)
  {
  }

  /** An automatic selection that clicks an already chosen card exactly once leaves that card unselected. */
  lemma {:induction false} AutoSelectUnselectsChosen(n: Negotiation, cfg: Config, cards: seq<Card>, card: Card)
    requires card in cfg.available && card in n.chosen && multiset(cards)[card] == 1
    ensures card !in ToggleAll(n, cfg, cards).chosen
    decreases |cards|
  {
    var init, last := cards[..|cards| - 1], cards[|cards| - 1];
    assert cards == init + [last];
    var prev := ToggleAll(n, cfg, init);
    if last == card {
      assert card !in init by { assert multiset(init)[card] == 0; }
      assert card in prev.chosen;
    } else {
      assert multiset(init)[card] == 1;
      AutoSelectUnselectsChosen(n, cfg, init, card);
      var res := Toggle(prev, cfg, last).1;
      assert card !in prev.chosen - {last};
      assert card !in res.chosen - {last};
    }
  }

  /* ---- the ledger and the input, as objects ---- */

  /** ManaCostBeingPaid, reduced to the two operations the negotiation uses. */
  class CostLedger {
    var remaining: multiset<Shard>
    const pick: Pick

    ghost predicate Valid()
    {
      SoundPick(pick)
    }

    constructor (cost: multiset<Shard>, pick: Pick)
      requires SoundPick(pick)
      ensures Valid()
      ensures remaining == cost && this.pick == pick
    {
      remaining := cost;
      this.pick := pick;
    }

    function GetUnpaidColors(): (u: Mask)
      reads this
      ensures u == UnpaidColors(remaining)
    {
      UnpaidColors(remaining)
    }

    /** payManaViaConvoke: pays one owed shard with the mask, or returns None and changes nothing. */
    method PayViaConvoke(mask: Mask) returns (paid: Option<Shard>)
      requires Valid()
      modifies this
      ensures paid == pick(old(remaining), mask)
      ensures paid.Some? ==> paid.value in old(remaining) && remaining == old(remaining) - multiset{paid.value}
      ensures paid.None? ==> remaining == old(remaining)
    {
      paid := pick(remaining, mask);
      if paid.Some? {
        remaining := remaining - multiset{paid.value};
      }
    }

    /** increaseShard: owes `count` more of the shard. */
    method IncreaseShard(shard: Shard, count: nat)
      modifies this
      ensures remaining == old(remaining)[shard := old(remaining)[shard] + count]
      ensures count == 1 ==> remaining == old(remaining) + multiset{shard}
    {
      remaining := remaining[shard := remaining[shard] + count];
    }
  }

  class ConvokeInput {
    var chosenCards: map<Card, (Mask, Shard)>
    const remainingCost: CostLedger
    const availableCards: seq<Card>
    const improvise: bool
    /** The player's color prompt (player.getController().chooseColorAllowColorless). */
    const chooseColor: ColorPrompt
    /** The selection bounds handed to InputSelectManyBase. */
    const minSelection: nat
    const maxSelection: nat
    /** Set by InputSelectManyBase when the input is cancelled. */
    var cancelled: bool
    ghost const initialCost: multiset<Shard>

    function Cfg(): Config
    {
      Config(availableCards, improvise, remainingCost.pick, chooseColor)
    }

    function State(): Negotiation
      reads this, remainingCost
    {
      Negotiation(chosenCards, remainingCost.remaining)
    }

    ghost predicate Valid()
      reads this, remainingCost
    {
      && remainingCost.Valid()
      && Inv(State(), availableCards, initialCost)
      && minSelection == 0
      && maxSelection == Min(|initialCost|, |availableCards|)
    }

    constructor (cost: multiset<Shard>, untapped: seq<Card>, impr: bool, pick: Pick, prompt: ColorPrompt)
      requires SoundPick(pick)
      ensures Valid() && fresh(remainingCost)
      ensures minSelection == 0 && maxSelection == Min(|cost|, |untapped|)
      ensures chosenCards == map[] && remainingCost.remaining == cost && !cancelled
      ensures availableCards == untapped && improvise == impr && initialCost == cost
      ensures remainingCost.pick == pick && chooseColor == prompt
    {
      minSelection := 0;
      maxSelection := Min(|cost|, |untapped|);
      remainingCost := new CostLedger(cost, pick);
      availableCards := untapped;
      improvise := impr;
      chooseColor := prompt;
      chosenCards := map[];
      cancelled := false;
      initialCost := cost;
    }

    /** The mask a click on an unchosen `card` attempts; the prompt is asked only when two or more colors are left. */
    method ChosenColor(card: Card) returns (chosenColor: Mask)
      ensures chosenColor == AttemptMask(Cfg(), card, UnpaidColors(remainingCost.remaining))
    {
      if improvise {
        chosenColor := COLORLESS;
      } else {
        var colors := card.colors;
        if IsMulticolor(colors) {
          // keep only the colors the ledger still owes
          var unpaid := remainingCost.GetUnpaidColors();
          colors := colors * unpaid;
        }
        if !IsMulticolor(colors) {
          chosenColor := colors;
        } else {
          chosenColor := chooseColor(card, colors);
        }
      }
    }

    /** onCardSelected: one click on `card`. */
    method OnCardSelected(card: Card) returns (r: bool)
      requires Valid()
      modifies this, remainingCost
      ensures Valid()
      ensures cancelled == old(cancelled)
      ensures (r, State()) == Toggle(old(State()), Cfg(), card)
    {
      if card !in availableCards {
        return false;
      }
      if card in chosenCards {
        UnselectKeepsInv(State(), availableCards, initialCost, card);
        var color := chosenCards[card];
        chosenCards := chosenCards - {card};
        remainingCost.IncreaseShard(color.1, 1);
      } else {
        var chosenColor := ChosenColor(card);
        ghost var before := State();
        var shard := remainingCost.PayViaConvoke(chosenColor);
        if shard.None? {
          return false;
        }
        SelectKeepsInv(before, availableCards, initialCost, card, (chosenColor, shard.value));
        chosenCards := chosenCards[card := (chosenColor, shard.value)];
      }
      return true;
    }

    /** getConvokeMap: each chosen card with the shard it paid, or nothing if cancelled. */
    method GetConvokeMap() returns (result: map<Card, Shard>)
      ensures cancelled ==> result == map[]
      ensures !cancelled ==> result.Keys == chosenCards.Keys
      ensures !cancelled ==> forall c :: c in result ==> result[c] == chosenCards[c].1
    {
      result := map[];
      if !cancelled {
        var todo := chosenCards.Keys;
        while todo != {}
          invariant todo <= chosenCards.Keys
          invariant result.Keys == chosenCards.Keys - todo
          invariant forall c :: c in result ==> result[c] == chosenCards[c].1
          decreases todo
        {
          var c :| c in todo;
          result := result[c := chosenCards[c].1];
          todo := todo - {c};
        }
      }
    }

    /** getSelected: the chosen cards, all eligible and within the selection bound. */
    function GetSelected(): (s: set<Card>)
      requires Valid()
      reads this, remainingCost
      ensures s == chosenCards.Keys
      ensures |s| <= maxSelection
      ensures forall c :: c in s ==> c in availableCards
    {
      SelectionBound(State(), availableCards, initialCost);
      chosenCards.Keys
    }

    /**
     * onCancel (the "Auto" button): clicks, in order, every card the AI's
     * getConvokeOrImproviseFromList picked for the remaining cost.
     */
    method OnCancel(convoked: seq<Card>)
      requires Valid()
      modifies this, remainingCost
      ensures Valid()
      ensures cancelled == old(cancelled)
      ensures State() == ToggleAll(old(State()), Cfg(), convoked)
    {
      ghost var start := State();
      for i := 0 to |convoked|
        invariant Valid()
        invariant cancelled == old(cancelled)
        invariant State() == ToggleAll(start, Cfg(), convoked[..i])
      {
        ghost var prefix := convoked[..i + 1];
        assert prefix[..i] == convoked[..i] && prefix[i] == convoked[i];
        ghost var mid := State();
        var _ := OnCardSelected(convoked[i]);
        assert State() == Toggle(mid, Cfg(), convoked[i]).1;
        assert State() == ToggleAll(start, Cfg(), prefix);
      }
      assert convoked[..|convoked|] == convoked;
    }
  }
}
