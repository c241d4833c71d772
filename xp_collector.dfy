/**
 * XPCollector: the player's pickup trigger. A touching orb hands its value to
 * the player's PlayerExperience and is destroyed.
 */
module Collector {
  import opened Mathf
  import opened Experience

  /**
   * The part of an XP orb the collector uses: its value, the transform it
   * homes towards, and whether Destroy has been called on it.
   */
  class XPOrb {
    var value: int
    var target: Option<nat>
    var destroyed: bool

    constructor (value: int)
      ensures this.value == value && target == None && !destroyed
    {
      this.value, target, destroyed := value, None, false;
    }
  }

  class XPCollector {
    /** The collector's own transform, as an identity. */
    const self: nat
    var playerXP: PlayerExperience?

    /** Awake: an unassigned target falls back to the PlayerExperience on the same object. */
    constructor (self: nat, configured: PlayerExperience?, sibling: PlayerExperience?)
      ensures this.self == self
      ensures playerXP == if configured != null then configured else sibling
    {
      this.self := self;
      playerXP := if configured != null then configured else sibling;
    }

    /**
     * No orb: nothing happens. Otherwise the player (if any) gains exactly
     * max(0, value) XP and the orb is destroyed either way.
     */
    method CollectOrb(orb: XPOrb?)
      modifies orb, playerXP
      ensures playerXP == old(playerXP)
      ensures orb == null ==> playerXP == null || playerXP.State() == old(playerXP.State())
      ensures orb != null ==> orb.destroyed && orb.value == old(orb.value) && orb.target == old(orb.target)
      ensures orb != null && playerXP != null ==>
        playerXP.State() == AfterAddXP(old(playerXP.State()), MaxInt(0, old(orb.value)), playerXP.xpGrowth, playerXP.xpFlatIncrement)
      ensures playerXP != null ==>
        playerXP.xpGrowth == old(playerXP.xpGrowth) && playerXP.xpFlatIncrement == old(playerXP.xpFlatIncrement)
    {
      if orb == null {
        return;
      }
      var amount := MaxInt(0, orb.value);
      if playerXP != null {
        playerXP.AddXP(amount);
      }
      orb.destroyed := true;
    }

    /** A collider without an orb is ignored; an orb is pointed at this collector and collected. */
    method OnTriggerEnter(orb: XPOrb?)
      modifies orb, playerXP
      ensures playerXP == old(playerXP)
      ensures orb == null ==> playerXP == null || playerXP.State() == old(playerXP.State())
      ensures orb != null ==> orb.destroyed && orb.target == Some(self)
      ensures orb != null && playerXP != null ==>
        playerXP.State() == AfterAddXP(old(playerXP.State()), MaxInt(0, old(orb.value)), playerXP.xpGrowth, playerXP.xpFlatIncrement)
    {
      if orb == null {
        return;
      }
      orb.target := Some(self);
      CollectOrb(orb);
    }
  }
}
