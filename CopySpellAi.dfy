/**
 * The AI's decision whether to copy the ability on top of the stack
 * (forge-ai/src/main/java/forge/ai/ability/CopySpellAbilityAi.java).
 *
 * canPlayAI is a fixed-priority table of early returns over a snapshot of
 * the game: the stack top, the copying ability's parameters and costs, the
 * AI's properties and its per-turn memory. The services it consults (the
 * random gate, isOpponentOf, canBeTargetedBy, isCardRemAIDeck and the
 * evaluator run on a detached copy of the top) are inputs of the snapshot.
 */
module CopySpellAi {
  import opened Wrappers

  /** How the top's activating player stands to the AI player. */
  datatype Relation = AiItself | Opponent | Teammate

  /** The Java class of the stack top: a Spell, an AbilityActivated, or another SpellAbility. */
  datatype Kind = SpellKind | ActivatedKind | OtherKind

  /** The verdicts of AiPlayDecision that matter here. */
  datatype AiPlayDecision = WillPlay | CantPlaySa | OtherDecision

  /** The ability on top of the stack, as the decision sees it. */
  datatype TopAbility = TopAbility(
    id: nat,
    kind: Kind,
    isWrapper: bool,
    /** getApi() == ApiType.CopySpellAbility */
    isCopySpellApi: bool,
    hasConditionManaSpent: bool,
    /** ComputerUtilCard.isCardRemAIDeck of its host card */
    hostRemAIDeck: bool,
    /** CMC of its mana cost; None when it has no pay costs or no mana part */
    manaCmc: Option<int>,
    activator: Relation,
    /** top.canBeTargetedBy(sa) */
    targetableBySa: bool,
    /** canPlayFromEffectAI on the copy of the top with its targets reset */
    evaluatorVerdict: AiPlayDecision)

  /** Everything canPlayAI reads, apart from the random gate and the AI memory. */
  datatype Snapshot = Snapshot(
    /** AI property CHANCE_TO_COPY_OWN_SPELL_WHILE_ON_STACK */
    chanceProperty: int,
    /** AI property ALWAYS_COPY_SPELL_IF_CMC_DIFF */
    cmcDiff: int,
    /** the AILogic parameter of sa, None when absent */
    aiLogic: Option<string>,
    /** the AITgts parameter of sa, None when absent */
    aiTgts: Option<string>,
    mandatory: bool,
    /** CMC of sa's own mana cost; None when it has none */
    ownManaCmc: Option<int>,
    /** sa.getTargetRestrictions() != null */
    hasTargetRestrictions: bool,
    /** the host card of sa */
    host: nat,
    /** peekAbility() of the stack; None when the stack is empty */
    top: Option<TopAbility>)

  /** The outcome: the boolean returned, and whether the top was targeted and the host remembered. */
  datatype Decision = Decision(play: bool, commit: bool)

  const NoCopy := Decision(false, false)

  /** getParamOrDefault("AILogic", "") */
  function Logic(s: Snapshot): string
  {
    s.aiLogic.GetOr("")
  }

  /** String.contains: `pattern` is a prefix of some suffix of `text`. */
  predicate Contains(text: string, pattern: string)
    decreases |text|
  {
    pattern <= text || (text != [] && Contains(text[1..], pattern))
  }

  /** The logic tags under which a failed random gate does not stop the decision. */
  predicate IgnoresGate(logic: string)
  {
    logic == "AlwaysIfViable" || logic == "OnceIfViable" || logic == "AlwaysCopyActivatedAbilities"
  }

  /** Java's 32-bit `int` addition, which wraps around. */
  function AddInt32(a: int, b: int): (r: int)
    ensures -0x8000_0000 <= r < 0x8000_0000
    ensures -0x8000_0000 <= a + b < 0x8000_0000 ==> r == a + b
    ensures (r - (a + b)) % 0x1_0000_0000 == 0
  {
    (a + b + 0x8000_0000) % 0x1_0000_0000 - 0x8000_0000
  }

  /** The top costs at least `cmcDiff` more than sa, both costs being known; the sum is an `int` and may wrap. */
  predicate CmcOverride(s: Snapshot, top: TopAbility)
  {
    top.manaCmc.Some? && s.ownManaCmc.Some? && top.manaCmc.value >= AddInt32(s.ownManaCmc.value, s.cmcDiff)
  }

  /** A diff large enough to overflow the sum makes the override fire for small top costs. */
  lemma CmcDiffOverflowForcesOverride(s: Snapshot, top: TopAbility)
    requires top.manaCmc.Some? && s.ownManaCmc.Some?
    requires 0x8000_0000 <= s.ownManaCmc.value + s.cmcDiff < 0x1_8000_0000
    requires top.manaCmc.value >= s.ownManaCmc.value + s.cmcDiff - 0x1_0000_0000
    ensures CmcOverride(s, top) && EffectiveChance(s, top) == 100
  {
  }

  /** The chance handed to the random gate. */
  function EffectiveChance(s: Snapshot, top: TopAbility): (chance: int)
    ensures CmcOverride(s, top) ==> chance == 100
    ensures top.activator == Opponent ==> chance == 100
    ensures !CmcOverride(s, top) && top.activator != Opponent ==> chance == s.chanceProperty
  {
    var chance := if CmcOverride(s, top) then 100 else s.chanceProperty;
    if top.activator == Opponent then 100 else chance
  }

  /** The stack-top filters that end the decision with false, checked in this order. */
  predicate FilteredOut(s: Snapshot, top: TopAbility)
  {
    || (s.aiTgts == Some("OnlyOwned") && top.activator != AiItself)
    // the shape test also asks whether the top is no SpellAbility at all, which never holds
    || top.isWrapper
    || top.isCopySpellApi
    || top.hasConditionManaSpent
    || top.hostRemAIDeck
  }

  /** The verdict on the copy: the evaluator's for a spell, WillPlay for an own activated ability under the override. */
  function Verdict(s: Snapshot, top: TopAbility): (v: AiPlayDecision)
    ensures top.kind == SpellKind ==> v == top.evaluatorVerdict
    ensures top.kind == ActivatedKind ==>
      (v == WillPlay <==> top.activator == AiItself && Contains(Logic(s), "CopyActivatedAbilities"))
    ensures top.kind == OtherKind ==> v == CantPlaySa
  {
    if top.kind == SpellKind then top.evaluatorVerdict
    else if top.kind == ActivatedKind && top.activator == AiItself && Contains(Logic(s), "CopyActivatedAbilities") then WillPlay
    else CantPlaySa
  }

  /** The closing rule: a mandatory ability, or AILogic "Always", is played. */
  function Fallback(s: Snapshot): bool
  {
    s.mandatory || Logic(s) == "Always"
  }

  /**
   * canPlayAI. `percentTrue` is MyRandom.percentTrue, `activatedThisTurn`
   * the hosts the AI remembered as ACTIVATED_THIS_TURN.
   */
  function Decide(s: Snapshot, activatedThisTurn: set<nat>, percentTrue: int -> bool): (d: Decision)
    ensures s.top.None? ==> d == Decision(s.mandatory, false)
    ensures d.commit ==> d.play
    // the only path that targets the top and remembers the host
    ensures d.commit <==>
      && s.top.Some?
      && (percentTrue(EffectiveChance(s, s.top.value)) || IgnoresGate(Logic(s)))
      && !(Logic(s) == "OnceIfViable" && s.host in activatedThisTurn)
      && s.hasTargetRestrictions
      && !FilteredOut(s, s.top.value)
      && s.top.value.targetableBySa
      && Verdict(s, s.top.value) == WillPlay
  {
    if s.top.None? then Decision(s.mandatory, false)
    else
      var top := s.top.value;
      var logic := Logic(s);
      if !percentTrue(EffectiveChance(s, top)) && !IgnoresGate(logic) then NoCopy
      else if logic == "OnceIfViable" && s.host in activatedThisTurn then NoCopy
      else if s.hasTargetRestrictions && FilteredOut(s, top) then NoCopy
      else if s.hasTargetRestrictions && top.targetableBySa && Verdict(s, top) == WillPlay then Decision(true, true)
      else Decision(Fallback(s), false)
  }

  /** doTriggerAINoCost */
  function DoTriggerAINoCost(mandatory: bool, aiLogic: Option<string>): (r: bool)
    ensures r <==> mandatory || aiLogic == Some("Always")
  {
    mandatory || aiLogic == Some("Always")
  }

  /**
   * chkAIDrawback. The ChainOfSmog and ChainOfAcid heuristics and the
   * inherited chkAIDrawback are verdicts passed in.
   */
  function ChkAIDrawback(s: Snapshot, activatedThisTurn: set<nat>, percentTrue: int -> bool,
                         chainOfSmog: bool, chainOfAcid: bool, inherited: bool): (d: Decision)
    ensures Logic(s) == "ChainOfSmog" ==> d == Decision(chainOfSmog, false)
    ensures Logic(s) == "ChainOfAcid" ==> d == Decision(chainOfAcid, false)
    ensures Logic(s) != "ChainOfSmog" && Logic(s) != "ChainOfAcid" ==>
      d.commit == Decide(s, activatedThisTurn, percentTrue).commit &&
      (d.play <==> Decide(s, activatedThisTurn, percentTrue).play || (s.mandatory && inherited))
  {
    if s.aiLogic == Some("ChainOfSmog") then Decision(chainOfSmog, false)
    else if s.aiLogic == Some("ChainOfAcid") then Decision(chainOfAcid, false)
    else
      var d := Decide(s, activatedThisTurn, percentTrue);
      Decision(d.play || (s.mandatory && inherited), d.commit)
  }

  /** chooseSingleSpellAbility: the first candidate; None where `spells.get(0)` throws. */
  function ChooseSingleSpellAbility<T>(spells: seq<T>): (r: Option<T>)
    ensures r.None? <==> spells == []
    ensures r.Some? ==> r.value == spells[0]
  {
    if spells == [] then None else Some(spells[0])
  }

  /** confirmAction: always confirms, except that ChainOfAcid defers to its heuristic. */
  function ConfirmAction(aiLogic: Option<string>, chainOfAcid: bool): (r: bool)
    ensures aiLogic != Some("ChainOfAcid") ==> r
    ensures aiLogic == Some("ChainOfAcid") ==> r == chainOfAcid
  {
    if aiLogic == Some("ChainOfAcid") then chainOfAcid else true
  }

  /* ---- properties of the table ---- */

  /** With an empty stack the answer is exactly sa.isMandatory(), and nothing is committed. */
  lemma EmptyStackIsMandatory(s: Snapshot, memory: set<nat>, percentTrue: int -> bool)
    requires s.top.None?
    ensures Decide(s, memory, percentTrue) == Decision(s.mandatory, false)
  {
  }

  /** A failed gate without an overriding logic tag says no, even for a mandatory ability. */
  lemma FailedGateRejects(s: Snapshot, memory: set<nat>, percentTrue: int -> bool)
    requires s.top.Some? && !percentTrue(EffectiveChance(s, s.top.value)) && !IgnoresGate(Logic(s))
    ensures Decide(s, memory, percentTrue) == NoCopy
  {
  }

  /** For an opponent's top the gate is asked with chance 100, so a gate that honours 100 always passes. */
  lemma OpponentTopPassesGate(s: Snapshot, memory: set<nat>, percentTrue: int -> bool)
    requires s.top.Some? && s.top.value.activator == Opponent && percentTrue(100)
    ensures Decide(s, memory, percentTrue) == Decide(s, memory, _ => true)
  {
  }

  /** OnceIfViable copies at most once per turn for the same host. */
  lemma OnceIfViableRemembered(s: Snapshot, memory: set<nat>, percentTrue: int -> bool)
    requires s.top.Some? && Logic(s) == "OnceIfViable" && s.host in memory
    ensures Decide(s, memory, percentTrue) == NoCopy
  {
  }

  /** The stack-top filters answer false directly, without the mandatory fallback. */
  lemma FiltersBypassFallback(s: Snapshot, memory: set<nat>, percentTrue: int -> bool)
    requires s.top.Some? && s.hasTargetRestrictions && FilteredOut(s, s.top.value)
    ensures !Decide(s, memory, percentTrue).play
  {
  }

  /** Every answer that is not a commit and not an early false is the rule doTriggerAINoCost applies. */
  lemma FallbackIsTriggerRule(s: Snapshot, memory: set<nat>, percentTrue: int -> bool)
    requires s.top.Some?
    requires percentTrue(EffectiveChance(s, s.top.value)) || IgnoresGate(Logic(s))
    requires !(Logic(s) == "OnceIfViable" && s.host in memory)
    requires !(s.hasTargetRestrictions && FilteredOut(s, s.top.value))
    requires !Decide(s, memory, percentTrue).commit
    ensures Decide(s, memory, percentTrue).play == DoTriggerAINoCost(s.mandatory, s.aiLogic)
  {
  }

  /**
   * A top that is neither a Spell nor an AbilityActivated, and not a
   * wrapper, passes the shape guard and reaches the fallback.
   */
  lemma OtherShapeReachesFallback(s: Snapshot, memory: set<nat>, percentTrue: int -> bool)
    requires s.top.Some? && s.top.value.kind == OtherKind
    requires percentTrue(EffectiveChance(s, s.top.value)) || IgnoresGate(Logic(s))
    requires !(Logic(s) == "OnceIfViable" && s.host in memory)
    requires !FilteredOut(s, s.top.value)
    ensures Decide(s, memory, percentTrue) == Decision(Fallback(s), false)
  {
  }

  /* ---- the commit, on the state it changes ---- */

  /** The targets of sa and the AI's ACTIVATED_THIS_TURN memory. */
  class CopyContext {
    var saTargets: seq<nat>
    var activatedThisTurn: set<nat>

    constructor (targets: seq<nat>, remembered: set<nat>)
      ensures saTargets == targets && activatedThisTurn == remembered
    {
      saTargets := targets;
      activatedThisTurn := remembered;
    }

    /** canPlayAI with its commit: on WillPlay the top becomes a target and the host is remembered. */
    method CanPlayAI(s: Snapshot, percentTrue: int -> bool) returns (r: bool)
      modifies this
      ensures r == Decide(s, old(activatedThisTurn), percentTrue).play
      ensures Decide(s, old(activatedThisTurn), percentTrue).commit ==>
        saTargets == old(saTargets) + [s.top.value.id] && activatedThisTurn == old(activatedThisTurn) + {s.host}
      ensures !Decide(s, old(activatedThisTurn), percentTrue).commit ==>
        saTargets == old(saTargets) && activatedThisTurn == old(activatedThisTurn)
    {
      var d := Decide(s, activatedThisTurn, percentTrue);
      if d.commit {
        saTargets := saTargets + [s.top.value.id];
        activatedThisTurn := activatedThisTurn + {s.host};
      }
      r := d.play;
    }
  }
}
