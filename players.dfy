/**
 * A player of the RPG minigame: the cards it owns, the actions its cards
 * grant for the current battle, a strength boost and an hp boost, its
 * current hp (never above the maximum when assigned) and the queue of
 * attacks it has initiated this turn.
 *
 * The source's cards and actions carry closures; here they carry effect
 * descriptors, one per thing the source's closures do.
 */
module Players {
  import opened Boosts

  /** `Player.baseHp` and `Player.baseStrength`. */
  const BaseHp := 10
  const BaseStrength := 1

  /** What an action does when executed. */
  datatype ActionEffect =
    /** Ice dagger: sets the target's hp to a rounded random draw (between 0 and its hp minus the performer's strength). */
    | RandomStrike

  datatype PlayerAction = PlayerAction(name: string, description: string, requiresTarget: bool, effect: ActionEffect)

  /** Which of the player's boosts a card effect changes. */
  datatype Stat = Strength | Hp

  /** One step of a card's effect on its owner. */
  datatype CardEffect =
    | SetBoostOn(stat: Stat, entry: BoostEntry)   // `player.<stat>Boost.setBoost(entry)`
    | GrantAction(action: PlayerAction)           // `player.addAction(action)`

  datatype CardType = ActionCard | PassiveCard

  /** A card: its effect runs once on its owner at every battle reset. */
  datatype Card = Card(name: string, description: string, kind: CardType, effects: seq<CardEffect>)

  /** An attack a player has queued: who performs it, on whom, with which action. */
  datatype OutgoingAttack = OutgoingAttack(performer: Player, target: Player, action: PlayerAction)

  /** The part of a player that card effects change. */
  datatype Loadout = Loadout(strengthBoost: Boost, hpBoost: Boost, actions: seq<PlayerAction>)

  function ApplyEffect(l: Loadout, e: CardEffect): Loadout {
    match e
    case SetBoostOn(Strength, entry) => l.(strengthBoost := SetBoost(l.strengthBoost, entry))
    case SetBoostOn(Hp, entry) => l.(hpBoost := SetBoost(l.hpBoost, entry))
    case GrantAction(a) => l.(actions := l.actions + [a])
  }

  /** A card's effect: its steps in order. */
  function ApplyCard(l: Loadout, effects: seq<CardEffect>): Loadout {
    if effects == [] then l
    else ApplyEffect(ApplyCard(l, effects[..|effects| - 1]), effects[|effects| - 1])
  }

  /** Every card's effect, in card order. */
  function ApplyCards(l: Loadout, cards: seq<Card>): Loadout {
    if cards == [] then l
    else ApplyCard(ApplyCards(l, cards[..|cards| - 1]), cards[|cards| - 1].effects)
  }

  /** The actions a card grants, in the order its effect adds them. */
  function GrantedBy(effects: seq<CardEffect>): seq<PlayerAction> {
    if effects == [] then []
    else
      var e := effects[|effects| - 1];
      GrantedBy(effects[..|effects| - 1]) + (if e.GrantAction? then [e.action] else [])
  }

  /** The actions a list of cards grants, card by card. */
  function GrantedByCards(cards: seq<Card>): seq<PlayerAction> {
    if cards == [] then []
    else GrantedByCards(cards[..|cards| - 1]) + GrantedBy(cards[|cards| - 1].effects)
  }

  /** The hp setter's rule: the assigned value, capped at the maximum; there is no lower bound. */
  function ClampHp(value: int, maxHp: int): (hp: int)
    ensures hp <= maxHp && hp <= value
    ensures hp == value || hp == maxHp
  {
    if value < maxHp then value else maxHp
  }

  class Player {
    var name: string
    var cards: seq<Card>
    /** Rebuilt at every battle reset. */
    var actions: seq<PlayerAction>
    var strengthBoost: Boost
    /** Also determines max hp. */
    var hpBoost: Boost
    /** `outgoingAttacksQueue`: attacks initiated this turn, oldest first. */
    var queue: seq<OutgoingAttack>
    /** The stored current hp (`_hp`). */
    var hp: int

    /** `getStrength`: the strength boost's value; the base strength while it has no contribution. */
    function Strength(): (strength: int)
      reads this`strengthBoost
      ensures strengthBoost.entries == [] ==> strength == strengthBoost.baseValue
    {
      Calculate(strengthBoost)
    }

    /** `getMaxHp`: the hp boost's value; the base hp while it has no contribution. */
    function MaxHp(): (maxHp: int)
      reads this`hpBoost
      ensures hpBoost.entries == [] ==> maxHp == hpBoost.baseValue
    {
      Calculate(hpBoost)
    }

    function CurrentLoadout(): Loadout
      reads this`strengthBoost, this`hpBoost, this`actions
    {
      Loadout(strengthBoost, hpBoost, actions)
    }

    /** A new player: no cards, actions or queued attacks, base boosts, and hp at the base maximum. */
    constructor (name: string)
      ensures this.name == name
      ensures cards == [] && actions == [] && queue == []
      ensures strengthBoost == NewBoost(BaseStrength) && hpBoost == NewBoost(BaseHp)
      ensures Strength() == BaseStrength && MaxHp() == BaseHp && hp == BaseHp
    {
      this.name := name;
      cards := [];
      actions := [];
      strengthBoost := NewBoost(BaseStrength);
      hpBoost := NewBoost(BaseHp);
      queue := [];
      hp := Calculate(NewBoost(BaseHp));
    }

    /** The `hp` setter: stores the value capped at the current max hp. */
    method SetHp(value: int)
      modifies this`hp
      ensures hp == ClampHp(value, MaxHp())
      ensures hp <= MaxHp()
    {
      hp := if value < MaxHp() then value else MaxHp();
    }

    method AddCard(card: Card)
      modifies this`cards
      ensures cards == old(cards) + [card]
    {
      cards := cards + [card];
    }

    /** Appends all the given cards, in order. */
    method AddCards(newCards: seq<Card>)
      modifies this`cards
      ensures cards == old(cards) + newCards
    {
      cards := cards + newCards;
    }

    method AddAction(action: PlayerAction)
      modifies this`actions
      ensures actions == old(actions) + [action]
    {
      actions := actions + [action];
    }

    /** Queues an attack behind those already queued. */
    method AddOutgoingAttack(attack: OutgoingAttack)
      modifies this`queue
      ensures queue == old(queue) + [attack]
    {
      queue := queue + [attack];
    }

    /** Runs one card's effect on this player. */
    method RunCardEffect(card: Card)
      modifies this`strengthBoost, this`hpBoost, this`actions
      ensures CurrentLoadout() == ApplyCard(old(CurrentLoadout()), card.effects)
    {
      for i := 0 to |card.effects|
        invariant CurrentLoadout() == ApplyCard(old(CurrentLoadout()), card.effects[..i])
      {
        assert card.effects[..i + 1][..i] == card.effects[..i];
        match card.effects[i]
        case SetBoostOn(Strength, entry) =>
          strengthBoost := SetBoost(strengthBoost, entry);
        case SetBoostOn(Hp, entry) =>
          hpBoost := SetBoost(hpBoost, entry);
        case GrantAction(action) =>
          AddAction(action);
      }
      assert card.effects[..|card.effects|] == card.effects;
    }

    /** Runs every owned card's effect, in card order. */
    method RunCardEffects()
      modifies this`strengthBoost, this`hpBoost, this`actions
      ensures CurrentLoadout() == ApplyCards(old(CurrentLoadout()), cards)
    {
      for i := 0 to |cards|
        invariant CurrentLoadout() == ApplyCards(old(CurrentLoadout()), cards[..i])
      {
        assert cards[..i + 1][..i] == cards[..i];
        RunCardEffect(cards[i]);
      }
      assert cards[..|cards|] == cards;
    }

    /**
     * `resetPlayerBeforeBattle`: empties the actions and the queue, clears
     * both boosts, sets hp to the max hp of the cleared boosts, and only then
     * runs the card effects.
     */
    method ResetPlayerBeforeBattle()
      modifies this
      ensures name == old(name) && cards == old(cards)
      ensures queue == []
      ensures CurrentLoadout() == ApplyCards(Loadout(ClearBoosts(old(strengthBoost)), ClearBoosts(old(hpBoost)), []), cards)
      ensures hp == old(hpBoost).baseValue
    {
      actions := [];
      queue := [];
      strengthBoost := ClearBoosts(strengthBoost);
      hpBoost := ClearBoosts(hpBoost);
      hp := MaxHp();
      RunCardEffects();
    }

    /** The reset with hp set after the card effects, so that the player starts at its full max hp. */
    method ResetPlayerBeforeBattleFullHp()
      modifies this
      ensures name == old(name) && cards == old(cards)
      ensures queue == []
      ensures CurrentLoadout() == ApplyCards(Loadout(ClearBoosts(old(strengthBoost)), ClearBoosts(old(hpBoost)), []), cards)
      ensures hp == MaxHp()
    {
      actions := [];
      queue := [];
      strengthBoost := ClearBoosts(strengthBoost);
      hpBoost := ClearBoosts(hpBoost);
      RunCardEffects();
      hp := MaxHp();
    }
  }

  // ---------------------------------------------------------------------------
  // The enemy catalogue

  const IceDagger := PlayerAction("ice dagger but crueler", "cold", true, RandomStrike)

  /** Sets base hp 30 and base strength 5. */
  const CruelerKingCard := Card("crueler king", "the crueler king", PassiveCard, [
    SetBoostOn(Hp, BoostEntry("base", 0, Constant(30))),
    SetBoostOn(Strength, BoostEntry("base", 0, Constant(5)))
  ])

  /** Grants the ice dagger action. */
  const IceDaggerCard := Card("ice dagger but crueler", "cold", ActionCard, [GrantAction(IceDagger)])

  /** The first boss, "crueler king", holding both cards. */
  method CruelerKing() returns (boss: Player)
    ensures fresh(boss)
    ensures boss.name == "crueler king" && boss.cards == [CruelerKingCard, IceDaggerCard]
    ensures boss.strengthBoost == NewBoost(BaseStrength) && boss.hpBoost == NewBoost(BaseHp)
    ensures boss.hp == BaseHp && boss.actions == [] && boss.queue == []
  {
    boss := new Player("crueler king");
    boss.AddCards([CruelerKingCard, IceDaggerCard]);
  }

  /**
   * The boss's first battle reset, as the reset is written: its cards raise
   * its max hp to 30 and its strength to 5 and grant the ice dagger, but its
   * hp was set from the cleared boost, 10, before they ran.
   */
  method CruelerKingFirstReset() returns (boss: Player)
    ensures fresh(boss)
    ensures boss.hp == 10 && boss.MaxHp() == 30
    ensures boss.Strength() == 5 && boss.actions == [IceDagger]
  {
    boss := CruelerKing();
    boss.ResetPlayerBeforeBattle();
    CruelerKingReset();
    ResetActions(NewBoost(BaseStrength), NewBoost(BaseHp), [CruelerKingCard, IceDaggerCard]);
  }

  /** The same reset with hp set after the card effects: the boss starts at its full 30 hp. */
  method CruelerKingFirstResetFullHp() returns (boss: Player)
    ensures fresh(boss)
    ensures boss.hp == 30 && boss.MaxHp() == 30
    ensures boss.Strength() == 5 && boss.actions == [IceDagger]
  {
    boss := CruelerKing();
    boss.ResetPlayerBeforeBattleFullHp();
    CruelerKingReset();
    ResetActions(NewBoost(BaseStrength), NewBoost(BaseHp), [CruelerKingCard, IceDaggerCard]);
  }

  // ---------------------------------------------------------------------------
  // Properties

  /** Card effects only add actions: the actions afterwards are the old ones and then each granted one, in order. */
  lemma {:induction false} ApplyCardActions(l: Loadout, effects: seq<CardEffect>)
    ensures ApplyCard(l, effects).actions == l.actions + GrantedBy(effects)
  {
    if effects != [] {
      ApplyCardActions(l, effects[..|effects| - 1]);
    }
  }

  lemma {:induction false} ApplyCardsActions(l: Loadout, cards: seq<Card>)
    ensures ApplyCards(l, cards).actions == l.actions + GrantedByCards(cards)
  {
    if cards != [] {
      var init := cards[..|cards| - 1];
      ApplyCardsActions(l, init);
      ApplyCardActions(ApplyCards(l, init), cards[|cards| - 1].effects);
    }
  }

  /** After a reset the actions are exactly those the cards grant, in card order. */
  lemma ResetActions(strength: Boost, hp: Boost, cards: seq<Card>)
    ensures ApplyCards(Loadout(ClearBoosts(strength), ClearBoosts(hp), []), cards).actions == GrantedByCards(cards)
  {
    ApplyCardsActions(Loadout(ClearBoosts(strength), ClearBoosts(hp), []), cards);
  }

  /**
   * The loadout a reset gives the boss: its cards, run over the cleared
   * boosts, give max hp 30, strength 5 and one ice dagger action, while the
   * cleared hp boost the reset reads its hp from has base 10.
   */
  lemma CruelerKingReset()
    ensures var l := ApplyCards(Loadout(ClearBoosts(NewBoost(BaseStrength)), ClearBoosts(NewBoost(BaseHp)), []),
                                [CruelerKingCard, IceDaggerCard]);
      && Calculate(l.hpBoost) == 30
      && Calculate(l.strengthBoost) == 5
      && l.actions == [IceDagger]
      && ClearBoosts(NewBoost(BaseHp)).baseValue == 10
  {
    var l0 := Loadout(ClearBoosts(NewBoost(BaseStrength)), ClearBoosts(NewBoost(BaseHp)), []);
    var king := CruelerKingCard.effects;
    var dagger := IceDaggerCard.effects;
    assert king[..1] == [king[0]] && king[..1][..0] == [] && dagger[..0] == [];
    assert ApplyCard(l0, king[..1]) == ApplyEffect(l0, king[0]);
    var l1 := ApplyCard(l0, king);
    assert l1 == ApplyEffect(ApplyEffect(l0, king[0]), king[1]);
    assert l1.hpBoost == SetBoost(NewBoost(BaseHp), BoostEntry("base", 0, Constant(30)));
    assert l1.strengthBoost == SetBoost(NewBoost(BaseStrength), BoostEntry("base", 0, Constant(5)));
    var cards := [CruelerKingCard, IceDaggerCard];
    assert cards[..1] == [CruelerKingCard] && cards[..1][..0] == [];
    assert ApplyCards(l0, cards[..1]) == l1;
    var l2 := ApplyCards(l0, cards);
    assert l2 == ApplyCard(l1, dagger);
    assert ApplyCard(l1, dagger) == ApplyEffect(ApplyCard(l1, dagger[..0]), dagger[0]);
    assert l2 == ApplyEffect(l1, dagger[0]);
    ConstantAloneCalculates(BaseHp, "base", 0, 30);
    ConstantAloneCalculates(BaseStrength, "base", 0, 5);
  }
}
