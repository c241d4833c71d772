/**
 * UpgradeDirector: on a level-up the game pauses and offers a few distinct
 * upgrades from the catalog in random order; the first number key pressed
 * picks one, which is applied to the player, and the game resumes.
 */
module UpgradeMenu {
  import opened Mathf
  import opened Run
  import opened AutoFire
  import opened Upgrades
  import opened GlobalXP

  /** Inspector default: three upgrades on offer, picked with the keys 1, 2 and 3. */
  const DefaultChoices := 3
  const Alpha1 := 49
  const Alpha2 := 50
  const Alpha3 := 51

  /** `p` lists every position of a catalog of size n exactly once: a random ordering of it. */
  predicate IsPermutation(p: seq<nat>, n: nat)
  {
    && |p| == n
    && (forall i :: 0 <= i < n ==> p[i] < n)
    && (forall i, j :: 0 <= i < j < n ==> p[i] != p[j])
  }

  /**
   * The offer: the first k catalog entries in the order `perm`, so k entries
   * from k distinct catalog positions.
   */
  function Offer(catalog: seq<Option<Upgrade>>, perm: seq<nat>, k: nat): (r: seq<Option<Upgrade>>)
    requires IsPermutation(perm, |catalog|) && k <= |catalog|
    ensures |r| == k
    ensures forall i :: 0 <= i < k ==> r[i] == catalog[perm[i]]
  {
    seq(k, i requires 0 <= i < k => catalog[perm[i]])
  }

  /** Distinct catalog entries give an offer without repeats, each one drawn from the catalog. */
  lemma OfferDistinct(catalog: seq<Option<Upgrade>>, perm: seq<nat>, k: nat)
    requires IsPermutation(perm, |catalog|) && k <= |catalog|
    requires forall i, j :: 0 <= i < j < |catalog| ==> catalog[i] != catalog[j]
    ensures forall i, j :: 0 <= i < j < k ==> Offer(catalog, perm, k)[i] != Offer(catalog, perm, k)[j]
    ensures forall i :: 0 <= i < k ==> Offer(catalog, perm, k)[i] in catalog
  {
    var r := Offer(catalog, perm, k);
    forall i, j | 0 <= i < j < k
      ensures r[i] != r[j]
    {
      var a, b := perm[i], perm[j];
      assert a != b;
      if a < b {
        assert catalog[a] != catalog[b];
      } else {
        assert catalog[b] != catalog[a];
      }
    }
  }

  /** Key i was pressed this frame, and it is the first pressed among the keys that pick an offered upgrade. */
  predicate FirstPressed(offered: nat, keys: seq<int>, pressed: int -> bool, i: nat)
  {
    && i < offered && i < |keys| && pressed(keys[i])
    && forall j :: 0 <= j < i ==> !pressed(keys[j])
  }

  predicate NonePressed(offered: nat, keys: seq<int>, pressed: int -> bool)
  {
    forall j :: 0 <= j < offered && j < |keys| ==> !pressed(keys[j])
  }

  /**
   * The key scan: the first i below both the offer's and the key list's
   * length whose key went down this frame (`pressed`), or None.
   */
  method FirstPressedIndex(offered: nat, keys: seq<int>, pressed: int -> bool) returns (r: Option<nat>)
    ensures r.None? <==> NonePressed(offered, keys, pressed)
    ensures r.Some? ==> FirstPressed(offered, keys, pressed, r.value)
  {
    var i := 0;
    while i < offered && i < |keys|
      invariant 0 <= i && i <= |keys|
      invariant forall j :: 0 <= j < i ==> !pressed(keys[j])
    {
      if pressed(keys[i]) {
        return Some(i);
      }
      i := i + 1;
    }
    return None;
  }

  class UpgradeDirector {
    /** The catalog (None: not assigned; a None entry: an empty slot). */
    const allUpgrades: Option<seq<Option<Upgrade>>>
    const choices: int
    /** The key codes that pick the first, second, ... offered upgrade. */
    const choiceKeys: seq<int>
    var currentOffer: seq<Option<Upgrade>>
    var showing: bool

    /** Nothing on offer at first. */
    constructor (allUpgrades: Option<seq<Option<Upgrade>>>, choices: int, choiceKeys: seq<int>)
      ensures this.allUpgrades == allUpgrades && this.choices == choices && this.choiceKeys == choiceKeys
      ensures currentOffer == [] && !showing
    {
      this.allUpgrades, this.choices, this.choiceKeys := allUpgrades, choices, choiceKeys;
      currentOffer, showing := [], false;
    }

    /** Inspector defaults: three choices on the keys 1, 2, 3. */
    constructor Default(allUpgrades: Option<seq<Option<Upgrade>>>)
      ensures this.allUpgrades == allUpgrades && choices == DefaultChoices
      ensures choiceKeys == [Alpha1, Alpha2, Alpha3]
      ensures currentOffer == [] && !showing
    {
      this.allUpgrades, choices, choiceKeys := allUpgrades, DefaultChoices, [Alpha1, Alpha2, Alpha3];
      currentOffer, showing := [], false;
    }

    /**
     * Pause and offer upgrades. `perm` is the random order the catalog is
     * shuffled into. With no catalog or an empty one nothing happens;
     * otherwise the offer is the first clamp(choices, 1, n) catalog entries
     * in that order, the offer is showing and time stops.
     */
    method OfferChoices(perm: seq<nat>, time: TimeScale)
      requires allUpgrades.Some? ==> IsPermutation(perm, |allUpgrades.value|)
      modifies this, time
      ensures allUpgrades.None? || |allUpgrades.value| == 0 ==> unchanged(this) && unchanged(time)
      ensures allUpgrades.Some? && |allUpgrades.value| > 0 ==>
        var n := |allUpgrades.value|;
        && currentOffer == Offer(allUpgrades.value, perm, ClampInt(choices, 1, n))
        && showing && time.value == 0.0
    {
      if allUpgrades.None? || |allUpgrades.value| == 0 {
        return;
      }
      var n := |allUpgrades.value|;
      currentOffer := Offer(allUpgrades.value, perm, ClampInt(choices, 1, n));
      showing := true;
      time.value := 0.0;
    }

    /** Close the offer: nothing showing, nothing on offer, time running again. */
    method CancelOffer(time: TimeScale)
      modifies this, time
      ensures !showing && currentOffer == [] && time.value == 1.0
    {
      showing := false;
      time.value := 1.0;
      currentOffer := [];
    }

    /**
     * Apply offered upgrade `index` to the player (`hasPlayer`: one was
     * found; `weapon`: its auto-fire weapon, null if it has none), then close
     * the offer. Without a player, or on an empty slot, nothing is applied.
     */
    method ApplyChoice(index: nat, hasPlayer: bool, weapon: AutoFireWeapon?, time: TimeScale)
      requires index < |currentOffer|
      modifies this, time, weapon
      ensures !showing && currentOffer == [] && time.value == 1.0
      ensures weapon != null && (!hasPlayer || old(currentOffer[index]).None?) ==>
        weapon.fireRate == old(weapon.fireRate) && weapon.damage == old(weapon.damage)
      ensures weapon != null && hasPlayer && old(currentOffer[index]).Some? ==>
        var u := old(currentOffer[index]).value;
        && weapon.fireRate == old(weapon.fireRate) + FireRateGain(u)
        && weapon.damage == old(weapon.damage) + DamageGain(u)
    {
      if !hasPlayer {
        CancelOffer(time);
        return;
      }
      var upgrade := currentOffer[index];
      if upgrade.Some? {
        Apply(upgrade.value, weapon);
      }
      CancelOffer(time);
    }

    /**
     * Per frame: nothing unless an offer is showing. Then the first offered
     * upgrade whose key went down (`pressed`) is chosen and applied as
     * ApplyChoice does; with no such key nothing changes.
     */
    method Update(pressed: int -> bool, hasPlayer: bool, weapon: AutoFireWeapon?, time: TimeScale)
      returns (chosen: Option<nat>)
      modifies this, time, weapon
      ensures !old(showing) ==> chosen.None?
      ensures old(showing) ==> (chosen.None? <==> NonePressed(old(|currentOffer|), choiceKeys, pressed))
      ensures chosen.None? ==> unchanged(this) && unchanged(time) && (weapon == null || unchanged(weapon))
      ensures chosen.Some? ==>
        FirstPressed(old(|currentOffer|), choiceKeys, pressed, chosen.value)
        && !showing && currentOffer == [] && time.value == 1.0
      ensures chosen.Some? && weapon != null && hasPlayer && old(currentOffer[chosen.value]).Some? ==>
        var u := old(currentOffer[chosen.value]).value;
        && weapon.fireRate == old(weapon.fireRate) + FireRateGain(u)
        && weapon.damage == old(weapon.damage) + DamageGain(u)
    {
      if !showing {
        return None;
      }
      chosen := FirstPressedIndex(|currentOffer|, choiceKeys, pressed);
      if chosen.Some? {
        ApplyChoice(chosen.value, hasPlayer, weapon, time);
      }
    }
  }

  /**
   * A whole level-up with the default keys: the offer pauses the game, and
   * pressing 1 applies the first upgrade of the shuffled catalog and lets
   * time run again.
   */
  method OfferThenPickFirst(d: UpgradeDirector, perm: seq<nat>, weapon: AutoFireWeapon, time: TimeScale)
    requires d.choiceKeys == [Alpha1, Alpha2, Alpha3]
    requires d.allUpgrades.Some? && |d.allUpgrades.value| > 0 && IsPermutation(perm, |d.allUpgrades.value|)
    requires d.allUpgrades.value[perm[0]].Some?
    modifies d, time, weapon
    ensures time.value == 1.0 && !d.showing
    ensures var u := d.allUpgrades.value[perm[0]].value;
      weapon.fireRate == old(weapon.fireRate) + FireRateGain(u) && weapon.damage == old(weapon.damage) + DamageGain(u)
  {
    d.OfferChoices(perm, time);
    var chosen := d.Update(k => k == Alpha1, true, weapon, time);
    assert FirstPressed(1, d.choiceKeys, k => k == Alpha1, 0);
  }

  /**
   * PlayerXP.Add followed by its level-up hook: when a level was gained and
   * an UpgradeDirector exists (`dir`), it offers upgrades; with no level
   * gained, neither the director nor the time scale is touched.
   */
  method AddThenOffer(xp: PlayerXP, amount: int, dir: UpgradeDirector?, perm: seq<nat>, time: TimeScale)
    returns (leveled: bool)
    requires xp.Valid()
    requires dir != null && dir.allUpgrades.Some? ==> IsPermutation(perm, |dir.allUpgrades.value|)
    modifies xp, dir, time
    ensures xp.Valid()
    ensures leveled <==> xp.level > old(xp.level)
    ensures !leveled ==> (dir == null || unchanged(dir)) && unchanged(time)
    ensures leveled && dir != null && dir.allUpgrades.Some? && |dir.allUpgrades.value| > 0 ==>
      && dir.showing && time.value == 0.0
      && dir.currentOffer == Offer(dir.allUpgrades.value, perm, ClampInt(dir.choices, 1, |dir.allUpgrades.value|))
  {
    leveled := xp.Add(amount);
    if leveled && dir != null {
      dir.OfferChoices(perm, time);
    }
  }
}
