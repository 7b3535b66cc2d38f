/**
 * Joker resolution: the one-shot effect of each variant, the floored red
 * bonus and the black shield's truth table.
 */
module Joker {
  import opened Types
  import opened Constants

  const RED_DESCRIPTION: string := "Буфер увеличен на 30%!"
  const BLACK_DESCRIPTION: string := "Щит активирован! Следующий промах не сожжет буфер"
  const GREEN_DESCRIPTION: string := "Способность в разработке"

  /**
   * The ability of a revealed joker, by exhaustive dispatch on its variant:
   * red carries only the buffer factor, black only the shield, green nothing.
   */
  function ActivateJokerAbility(joker: JokerCard): (r: JokerAbilityResult)
    ensures r.jokerType == joker.variant
    ensures r.effect.bufferMultiplier.Some? <==> joker.variant == RedJoker
    ensures r.effect.bufferMultiplier.Some? ==> r.effect.bufferMultiplier.value == RED_JOKER_MULTIPLIER
    ensures r.effect.shieldActive.Some? <==> joker.variant == BlackJoker
    ensures r.effect.shieldActive.Some? ==> r.effect.shieldActive.value
  {
    match joker.variant
    case RedJoker =>
      JokerAbilityResult(RedJoker, RED_DESCRIPTION, JokerEffect(Some(RED_JOKER_MULTIPLIER), None))
    case BlackJoker =>
      JokerAbilityResult(BlackJoker, BLACK_DESCRIPTION, JokerEffect(None, Some(true)))
    case GreenJoker =>
      JokerAbilityResult(GreenJoker, GREEN_DESCRIPTION, JokerEffect(None, None))
  }

  /**
   * The red bonus, buffer times 1.3 floored: on integers it is (13 * buffer)
   * div 10, and it never lowers a non-negative buffer.
   */
  function ApplyRedJokerBonus(buffer: int): (r: int)
    ensures r == (13 * buffer) / 10
    ensures buffer >= 0 ==> buffer <= r
  {
    (buffer as real * RED_JOKER_MULTIPLIER).Floor
  }

  lemma RedBonusExamples()
    ensures ApplyRedJokerBonus(1000) == 1300 && ApplyRedJokerBonus(0) == 0
    ensures ApplyRedJokerBonus(1) == 1 && ApplyRedJokerBonus(100) == 130
    ensures ApplyRedJokerBonus(333) == 432
  {
  }

  datatype ShieldCheck = ShieldCheck(bufferProtected: bool, shieldRemaining: bool)

  /**
   * Whether an active shield absorbs this turn: it protects the buffer on a
   * miss and is spent, survives a hit, and does nothing when inactive.
   */
  function CheckShieldProtection(shieldActive: bool, isMiss: bool): (r: ShieldCheck)
    ensures r.bufferProtected <==> shieldActive && isMiss
    ensures r.shieldRemaining <==> shieldActive && !isMiss
  {
    if !shieldActive then ShieldCheck(false, false)
    else if isMiss then ShieldCheck(true, false)
    else ShieldCheck(false, true)
  }
}
