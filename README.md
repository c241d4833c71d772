# Zombie Roguelite: the game rules, modelled and proved in Dafny

The game is a top-down survival roguelite. You pick a character, and zombies
come at you in waves that grow with the run's elapsed time. An auto-fire
weapon shoots the nearest enemy. Two abilities (a dash and a shockwave) run
on cooldowns. Killed enemies drop experience orbs. A level-up pauses the game
and offers a few upgrades to pick from with the number keys.

This project models the engine-independent rules of that game, one Dafny
module per C# component:
- run state and the pausable clock (`Run`);
- the two experience trackers (`Experience` for the per-player component,
  `GlobalXP` for the static one) and orb collection (`Collector`);
- ability cooldowns (`Abilities`), the dash (`Dash`) and the shockwave
  (`Shockwave`);
- the auto-fire weapon (`AutoFire`);
- enemy and player health (`Enemy`, `Player`);
- enemy chasing (`Chase`) and the player registry (`Registry`);
- spawning and waves (`Spawner`, `Waves`);
- upgrades and the level-up menu (`Upgrades`, `UpgradeMenu`);
- character selection (`Selection`, `CharacterSelect`);
- the object pool (`Pool`).

`Mathf` holds the shared arithmetic: the engine's round-half-to-even
`RoundToInt`, clamps, and sums.

How the model treats engine features:
- Components whose fields change frame by frame are classes with
  `modifies` clauses.
- Engine time is a parameter: `now` for `Time.time`, `dt` for
  `Time.deltaTime`.
- The global time scale is a shared `Run.TimeScale` object.
- The `GameLoop.I` singleton is a nullable `GameLoop?` argument.
- Static classes (`PlayerXP`, `SelectedChoice`, `PlayerRegistry.Players`) are
  classes with one instance.
- Physics queries, navigation-mesh queries and random draws are oracle
  parameters: functions or precomputed draws passed in by the caller.
- Coroutines (the enemy death routine, the dash routine, the spawner's start-up
  and spawn loop) are explicit phases, advanced by a method that stands for
  one frame.

## Model

| member | source | states |
|---|---|---|
| Run.GameLoop.constructor | Assets/Scripts/GameLoop.cs:9-18 | A new loop is in the menu, with all clock fields zero. |
| Run.GameLoop.Elapsed | Assets/Scripts/GameLoop.cs:24-39 | Elapsed run time is zero outside a run (menu or game over). |
| Run.GameLoop.StartRun | Assets/Scripts/GameLoop.cs:59-67 | Starting a run sets Playing at full time scale, resets the clock, and makes elapsed time zero at that moment. |
| Run.GameLoop.Pause | Assets/Scripts/GameLoop.cs:69-75 | Only a Playing run pauses: time scale 0, pause moment recorded, and elapsed time frozen at its value for every later moment; otherwise nothing changes. |
| Run.GameLoop.Resume | Assets/Scripts/GameLoop.cs:77-84 | Only a Paused run resumes: the paused span is added to the accumulated pause, time runs at 1, and elapsed time is continuous across the resume. |
| Run.GameLoop.EndRunToMenu | Assets/Scripts/GameLoop.cs:86-90 | Returns to the menu at full time scale and keeps the clock fields. |
| Run.GameLoop.GameOver | Assets/Scripts/GameLoop.cs:92-96 | Game over stops time, and elapsed time reads zero afterwards. |
| Run.ElapsedMonotoneWhilePlaying | Assets/Scripts/GameLoop.cs:24-39 | While Playing, elapsed time advances exactly as the wall clock does. |
| Run.ElapsedFrozenWhilePaused | Assets/Scripts/GameLoop.cs:34-35 | While Paused, elapsed time is the same at every moment. |
| Run.PauseThenResume | Assets/Scripts/GameLoop.cs:69-84 | A pause and a later resume lose no run time and leave the game Playing. |
| Experience.NextThreshold | Assets/Scripts/PlayerExperience.cs:39-40 | The next threshold, rounded and clamped, lies between 1 and the largest int. |
| Experience.ThresholdNeverDecreases | Assets/Scripts/PlayerExperience.cs:39-40 | With a non-negative flat increment, a level-up never lowers the threshold. |
| Experience.Settle | Assets/Scripts/PlayerExperience.cs:23-29 | The level-up loop ends below the threshold and never lowers the level. |
| Experience.SettleConserves | Assets/Scripts/PlayerExperience.cs:19-30 | Remaining XP plus the thresholds paid equals the XP before the loop; one level per threshold paid. |
| Experience.SettleBounds | Assets/Scripts/PlayerExperience.cs:23-29 | From valid progress, the loop ends with 0 <= xp < threshold and a threshold of at least 1. |
| Experience.ThresholdsGrow | Assets/Scripts/PlayerExperience.cs:23-29 | Thresholds paid in one award never decrease, and the final threshold is at least the first. |
| Experience.DefaultSecondThreshold | Assets/Scripts/PlayerExperience.cs:6-14 | With the default growth settings, the threshold after 10 is 14. |
| Experience.TwoLevelUpsFromOneReward | Assets/Scripts/PlayerExperience.cs:19-30 | From a fresh tracker, 25 XP buys levels 2 and 3 (paying 10 and 14) and leaves 1 XP toward 20. |
| Experience.PlayerExperience.constructor | Assets/Scripts/PlayerExperience.cs:6-14 | The defaults: level 1, 0 XP, threshold 10, growth 1.25, flat increment 2. |
| Experience.PlayerExperience.AddXP | Assets/Scripts/PlayerExperience.cs:19-30 | A non-positive award changes nothing; otherwise the state is the settled loop, XP ends below the threshold, and XP is conserved. |
| Experience.PlayerExperience.LevelUp | Assets/Scripts/PlayerExperience.cs:32-43 | Level up by one; the threshold becomes the next threshold; XP is unchanged. |
| GlobalXP.GrowNextXP | Assets/Scripts/PlayerXP.cs:20 | The growth formula strictly raises every positive threshold. |
| GlobalXP.FirstThresholds | Assets/Scripts/PlayerXP.cs:20 | From 5, the thresholds run 8, 13, 21, 34. |
| GlobalXP.Step | Assets/Scripts/PlayerXP.cs:16-22 | One loop turn strictly raises the threshold. |
| GlobalXP.Settle | Assets/Scripts/PlayerXP.cs:16-22 | The loop ends below the threshold, with a threshold and level at least as high as before. |
| GlobalXP.SettleFacts | Assets/Scripts/PlayerXP.cs:11-32 | XP is conserved across the thresholds paid; one level per threshold; a level is gained exactly when XP reaches the threshold. |
| GlobalXP.PlayerXP.constructor | Assets/Scripts/PlayerXP.cs:6-8 | Starts at level 0, 0 XP, threshold 5. |
| GlobalXP.PlayerXP.Add | Assets/Scripts/PlayerXP.cs:11-32 | Negative amounts count as 0. The new state is the settled loop, the invariant 0 <= XP < threshold is kept, and the result says whether a level was gained. |
| Collector.XPCollector.constructor | Assets/Scripts/XPCollector.cs:22-30 | The collector uses the configured tracker, or else the one found on the player. |
| Collector.XPCollector.CollectOrb | Assets/Scripts/XPCollector.cs:33-39 | A null orb changes nothing. Otherwise the orb is destroyed, and the tracker (if any) is credited with the orb's value. |
| Collector.XPCollector.OnTriggerEnter | Assets/Scripts/XPCollector.cs:41-51 | An orb entering the trigger is aimed at this collector, collected and destroyed. |
| Abilities.AbilityBase.constructor | Assets/Scripts/Abilities/AbilityBase.cs:6-7 | The defaults: cooldown 5, multiplier 1, ready at once. |
| Abilities.AbilityBase.CanCast | Assets/Scripts/Abilities/AbilityBase.cs:11 | The gate is open exactly when the remaining cooldown reads zero. |
| Abilities.AbilityBase.TryCast | Assets/Scripts/Abilities/AbilityBase.cs:13-19 | A cast happens exactly when the ability is ready and the effect fires; only then is the next ready time set to now plus the effective cooldown. |
| Abilities.AbilityBase.CooldownRemaining | Assets/Scripts/Abilities/AbilityBase.cs:25 | Remaining cooldown is never negative, zero exactly when the ready time has been reached, and otherwise the time left until it. |
| Abilities.AbilityBase.CooldownPercent | Assets/Scripts/Abilities/AbilityBase.cs:26 | The cooldown fraction lies in [0, 1]. It is zero exactly when castable (when there is a cooldown), and zero always without one. |
| Abilities.CastTwice | Assets/Scripts/Abilities/AbilityBase.cs:13-19 | Two successful casts are at least one effective cooldown apart. |
| Enemy.OrbSplit | Assets/Scripts/EnemyHealth.cs:191-200 | XP is split into max(1, count) orbs, each worth at least 1, and any two orb values differ by at most one (larger ones first). |
| Enemy.OrbSplitSum | Assets/Scripts/EnemyHealth.cs:189-214 | The orbs are worth max(total, count) together, so the total is kept exactly when it is at least the orb count. |
| Enemy.OrbTotal | Assets/Scripts/EnemyHealth.cs:191-200 | The base value times the orb count, plus the extra points, is max(total, count). |
| Enemy.TenOverThree | Assets/Scripts/EnemyHealth.cs:191-200 | 10 XP over 3 orbs gives 4, 3 and 3. |
| Enemy.EnemyHealth.constructor | Assets/Scripts/EnemyHealth.cs:8-45 | A new enemy is neither dead nor dropped, with no routine running, and keeps its inspector settings. |
| Enemy.EnemyHealth.DropTimeout | Assets/Scripts/EnemyHealth.cs:140 | The drop timeout is at least 2.25 seconds. |
| Enemy.EnemyHealth.DropDue | Assets/Scripts/EnemyHealth.cs:133-166 | The drop is due once the routine's wait has elapsed. |
| Enemy.EnemyHealth.DueAtStart | Assets/Scripts/EnemyHealth.cs:136-158 | A routine started now drops on its first run exactly when the drop is due with no time elapsed. |
| Enemy.EnemyHealth.DropOrbs | Assets/Scripts/EnemyHealth.cs:185-186 | One drop spawns orbCount orbs when there is a prefab and both the total and the count are positive, and none otherwise. |
| Enemy.EnemyHealth.IsAlive | Assets/Scripts/EnemyHealth.cs:41 | An alive enemy has health left and is not dead, so (in a valid state) no death routine is running. |
| Enemy.EnemyHealth.OnEnable | Assets/Scripts/EnemyHealth.cs:52-62 | Re-enabling revives the enemy, resets its flags and restores full health when its health is out of range. |
| Enemy.EnemyHealth.TakeDamage | Assets/Scripts/EnemyHealth.cs:65-82 | The dead and non-positive damage are ignored. Damage reduces health; reaching zero sets health to 0 and starts the death sequence with the same outcome as StartDeathSequence. |
| Enemy.EnemyHealth.ApplyHealthMultiplier | Assets/Scripts/EnemyHealth.cs:87-93 | A positive multiplier scales maximum and current health (a non-positive current health becomes full), keeping health in range; otherwise nothing changes. |
| Enemy.EnemyHealth.StartDeathSequence | Assets/Scripts/EnemyHealth.cs:96-131 | The enemy dies once per life and a second call does nothing. The routine's first run waits for the drop, unless the drop is already due (event mode: orbs already dropped; fixed mode: no delay). Then the drop spawns one drop's worth if not yet done, and the routine moves on to the destroy wait or removal. |
| Enemy.EnemyHealth.ResumeDeathRoutine | Assets/Scripts/EnemyHealth.cs:133-166 | Each frame of the routine waits for the drop. Once it is due (event or timeout, or the fixed delay), the frame spawns one drop's worth of orbs and VFX unless the event already did, then waits out the destroy delay. |
| Enemy.EnemyHealth.OnDeathDropOrbs | Assets/Scripts/EnemyHealth.cs:172-187 | Orbs drop at most once per life: the first call spawns one drop's worth (the death effect if any, and the orb split), and later calls change nothing. |
| Enemy.EnemyHealth.SpawnXPOrbs | Assets/Scripts/EnemyHealth.cs:189-214 | Spawns exactly the orb split of the enemy's XP value, appended to the orbs already spawned. |
| Enemy.KilledTwice | Assets/Scripts/EnemyHealth.cs:65-82 | A second lethal hit after death does not restart the death sequence: the routine keeps the first hit's start time, and at most one drop is spawned. |
| Enemy.EventThenRoutine | Assets/Scripts/EnemyHealth.cs:140-150 | In event mode, the event drops the orbs; the routine then moves on without dropping again, and a repeated event spawns nothing. Exactly one drop's worth is spawned. |
| Enemy.TimeoutThenEvent | Assets/Scripts/EnemyHealth.cs:140-150 | In event mode without the event, the timeout drops the orbs, and a late event spawns nothing more. Exactly one drop's worth is spawned. |
| Player.PlayerHealth.constructor | Assets/Scripts/PlayerHealth.cs:22 | A new player has full health and no invulnerability frames. |
| Player.PlayerHealth.Update | Assets/Scripts/PlayerHealth.cs:24-27 | The invulnerability timer counts down only while positive; nothing else changes. |
| Player.PlayerHealth.TakeDamage | Assets/Scripts/PlayerHealth.cs:29-51 | Damage is ignored when dead or invulnerable. Otherwise health drops (floored at 0) and invulnerability starts. The first death ends the run (game over, time stopped); the game loop is untouched while alive. |
| Player.PlayerHealth.Heal | Assets/Scripts/PlayerHealth.cs:66-70 | The dead cannot heal. Healing adds the absolute amount, capped at the maximum. |
| Player.PlayerHealth.AddMaxHealth | Assets/Scripts/PlayerHealth.cs:72-76 | Maximum health grows by the absolute amount, with health refilled to the new maximum when asked. |
| Player.HitDuringIFrames | Assets/Scripts/PlayerHealth.cs:29-51 | A second hit inside the invulnerability window is ignored. |
| Player.DiesOnce | Assets/Scripts/PlayerHealth.cs:29-51 | After a lethal hit, later hits (even once invulnerability has run out) and heals do nothing: death is announced once and damage once. |
| AutoFire.NearestSlot | Assets/Scripts/AutoFireWeapon.cs:66-90 | Returns the first nearest targetable slot, and None exactly when nothing is targetable. |
| AutoFire.AutoFireWeapon.constructor | Assets/Scripts/AutoFireWeapon.cs:6-23 | The defaults: fire rate 2, damage 5, timer 0, a fresh hit buffer. |
| AutoFire.AutoFireWeapon.ScanMask | Assets/Scripts/AutoFireWeapon.cs:41-54 | Scans the target layers when filtering, and all layers otherwise. |
| AutoFire.AutoFireWeapon.TryFireOnce | Assets/Scripts/AutoFireWeapon.cs:38-109 | At most a buffer's worth of overlaps are copied; a shot is made exactly when some copied collider is targetable, at the nearest one, for the weapon's damage. |
| AutoFire.AutoFireWeapon.Update | Assets/Scripts/AutoFireWeapon.cs:26-36 | When the timer expires the weapon tries to fire, at the nearest targetable collider. After a shot the timer is one fire period; after a miss it is retried within 0.05 s. |
| Shockwave.ScanMask | Assets/Scripts/Abilities/ShockwaveUltimate.cs:67 | The scan uses the enemy layers when set, and all layers otherwise; never an empty mask. |
| Shockwave.HasLineOfSight | Assets/Scripts/Abilities/ShockwaveUltimate.cs:116-128 | Sight is clear without blockers or at near-zero distance; otherwise exactly when the ray is not blocked. |
| Shockwave.Victims | Assets/Scripts/Abilities/ShockwaveUltimate.cs:84-100 | There are never more victims than colliders, and there are none exactly when no collider is struck. |
| Shockwave.VictimsExactly | Assets/Scripts/Abilities/ShockwaveUltimate.cs:84-100 | A collider is struck exactly when it is present, damageable and (when required) in sight. |
| Shockwave.NoSightRuleHitsAllDamageables | Assets/Scripts/Abilities/ShockwaveUltimate.cs:84-100 | Without the sight rule, every damageable collider in range is struck. |
| Shockwave.ShockwaveAbility.constructor | Assets/Scripts/Abilities/ShockwaveUltimate.cs:10-24 | Keeps the settings, and the ability is ready at once. |
| Shockwave.ShockwaveAbility.CastShockwave | Assets/Scripts/Abilities/ShockwaveUltimate.cs:61-114 | One hit per victim, in scan order, for the shockwave's damage; the count returned is the number of hits. |
| Shockwave.ShockwaveAbility.TryCast | Assets/Scripts/Abilities/ShockwaveUltimate.cs:53-59 | Casts exactly when off cooldown; a cast sets the cooldown to now plus max(0.01, cooldown) and strikes the victims. |
| Shockwave.ShockwaveAbility.Update | Assets/Scripts/Abilities/ShockwaveUltimate.cs:45-51 | Casts exactly when input is allowed, the key went down and the ability is off cooldown. |
| Shockwave.CastTwiceQuickly | Assets/Scripts/Abilities/ShockwaveUltimate.cs:53-59 | A second cast within the cooldown fails. |
| Dash.DashAbility.constructor | Assets/Scripts/Abilities/DashAbility.cs:11-17 | Keeps the settings; not dashing and not cooling down. |
| Dash.DashAbility.Travelled | Assets/Scripts/Abilities/DashAbility.cs:98-117 | The distance covered lies between 0 and the dash distance: none at the start (k = 0), all of it at the end (k = 1). |
| Dash.DashAbility.ResumeDash | Assets/Scripts/Abilities/DashAbility.cs:98-117 | Each frame of the dash advances time by dt with progress clamped to [0, 1] and never decreasing; the frame after the duration ends the dash. |
| Dash.DashAbility.TryDash | Assets/Scripts/Abilities/DashAbility.cs:50-63 | A dash starts exactly when none is running and no cooldown is pending. It uses the forward direction inside the dead zone, clamps the distance and duration, and sets the cooldown. |
| Dash.DashAbility.Update | Assets/Scripts/Abilities/DashAbility.cs:42-48 | A dash starts exactly when input is allowed, the key went down and a dash may start. |
| Dash.DashToEnd | Assets/Scripts/Abilities/DashAbility.cs:79-124 | A dash run frame by frame ends, having covered the full distance. |
| Dash.DashTwice | Assets/Scripts/Abilities/DashAbility.cs:50-63 | Two dashes that both start are at least a cooldown apart. |
| Chase.MaxSqr | Assets/Scripts/EnemyChaseAI.cs:96-115 | The squared chase range is never negative. |
| Chase.NearestFromList | Assets/Scripts/EnemyChaseAI.cs:96-115 | Returns the position of the nearest player within chase range (the first of equally near ones), and None exactly when none is in range. |
| Chase.Source | Assets/Scripts/EnemyChaseAI.cs:81-94 | The registry is searched when it is non-empty, and the tagged objects otherwise. |
| Chase.FindNearestPlayer | Assets/Scripts/EnemyChaseAI.cs:81-94 | The same result over the chosen source: the registry when non-empty, else the tagged objects. |
| Chase.EnemyChaseAI.constructor | Assets/Scripts/EnemyChaseAI.cs:9-11 | Keeps the settings, with no target and both timers zero. |
| Chase.EnemyChaseAI.OnEnable | Assets/Scripts/EnemyChaseAI.cs:38-51 | Snaps onto the mesh when a sample is found, and staggers both timers inside their intervals. |
| Chase.EnemyChaseAI.Update | Assets/Scripts/EnemyChaseAI.cs:53-79 | Off the mesh nothing happens. Otherwise the target is refreshed when the retarget timer runs out, and the path to the target when the repath timer runs out. |
| Registry.RemoveFirst | Assets/Scripts/PlayerRegistry.cs:9 | Removing an absent entry changes nothing; removing a present one shortens the list by one and adds nothing. |
| Registry.RemoveFirstAt | Assets/Scripts/PlayerRegistry.cs:9 | Removal cuts out exactly the first occurrence. |
| Registry.RemoveFirstNoDup | Assets/Scripts/PlayerRegistry.cs:9 | In a list without duplicates, removal leaves no copy of the entry and still no duplicates. |
| Registry.PlayerRegistry.constructor | Assets/Scripts/PlayerRegistry.cs:6 | The registry starts empty. |
| Registry.PlayerRegistry.OnEnable | Assets/Scripts/PlayerRegistry.cs:8 | Registers the player once: appended if absent, unchanged if present, and never duplicated. |
| Registry.PlayerRegistry.OnDisable | Assets/Scripts/PlayerRegistry.cs:9 | Unregisters the player: afterwards it is absent, and the others keep their order. |
| Spawner.HealthMultApplied | Assets/Scripts/EnemySpawner.cs:205-210 | A multiplier reaches the enemy exactly when it is above 1.001. |
| Spawner.Radius | Assets/Scripts/EnemySpawner.cs:219 | The placement radius lies in the range drawn from, which starts at 1 or more; for a non-negative minimum distance it is never closer than that minimum. |
| Spawner.CompactFacts | Assets/Scripts/EnemySpawner.cs:45-55 | Compaction keeps exactly the non-null spawn points. It keeps a list without nulls whole and shortens any other. |
| Spawner.CompactMembers | Assets/Scripts/EnemySpawner.cs:45-55 | The kept spawn points are non-null, and a point is kept exactly when it is a non-null entry of the input. |
| Spawner.CompactLength | Assets/Scripts/EnemySpawner.cs:45-55 | Compaction never lengthens the list. It keeps the length exactly when there are no nulls, and then keeps the list whole. |
| Spawner.CompactArray | Assets/Scripts/EnemySpawner.cs:45-55 | The counting and copying loops produce the compacted array, or the same array when there are no nulls. |
| Spawner.CopyNonNull | Assets/Scripts/EnemySpawner.cs:45-55 | The copying loop fills a new array with exactly the non-null points, in order. |
| Spawner.EnemySpawner.constructor | Assets/Scripts/EnemySpawner.cs:8-35 | The inspector defaults, with the start-up coroutine waiting for play. |
| Spawner.EnemySpawner.OnValidate | Assets/Scripts/EnemySpawner.cs:37-56 | Clamps every setting to its lower bound, and leaves the spawn points free of nulls. |
| Spawner.EnemySpawner.CompactSpawnPoints | Assets/Scripts/EnemySpawner.cs:45-55 | The spawn points become exactly their non-null entries, in order (the same array when there are no nulls); no other setting changes. |
| Spawner.EnemySpawner.TrySnapToNavMesh | Assets/Scripts/EnemySpawner.cs:252-268 | Without snapping, the candidate is kept; with snapping, the nearby mesh point is used (if any). |
| Spawner.EnemySpawner.FirstAccepting | Assets/Scripts/EnemySpawner.cs:216-230 | Finds the first successful placement attempt, if any: every earlier attempt fails, and with none found every attempt fails. |
| Spawner.EnemySpawner.TryGetSpawnPositionNearPlayer | Assets/Scripts/EnemySpawner.cs:214-233 | At most 12 attempts; the first attempt that snaps (and reaches the player when required) gives the position; failure means all 12 failed. |
| Spawner.EnemySpawner.SpawnAtPoint | Assets/Scripts/EnemySpawner.cs:148-163 | A null point, or one the snap rejects, spawns nothing; otherwise an enemy spawns at the snapped point, carrying the applied health multiplier. |
| Spawner.EnemySpawner.SpawnNearPlayer | Assets/Scripts/EnemySpawner.cs:165-180 | No player means no spawn. Otherwise the enemy spawns at the snapped candidate of the first successful attempt; failing all 12, at the snapped random mesh point; failing that too, not at all. A spawned enemy carries the applied health multiplier. |
| Spawner.EnemySpawner.Mode | Assets/Scripts/EnemySpawner.cs:108-146 | A wave needs the enemy prefab. Spawn points take precedence, then a player. |
| Spawner.EnemySpawner.SpawnWaveScaled | Assets/Scripts/EnemySpawner.cs:128-146 | One attempt per enemy (none without a placement mode). The enemies spawned are, in order, those of the attempts that spawn one: at the point picked for each attempt, or near the player. Each is scaled alike. With snapping off and no null points, every attempt at a spawn point spawns. |
| Spawner.EnemySpawner.SpawnAtPoints | Assets/Scripts/EnemySpawner.cs:132-134 | The loop at spawn points spawns, in order, what each attempt at its picked point spawns; with snapping off and no null points, every attempt spawns. |
| Spawner.EnemySpawner.SpawnAroundPlayer | Assets/Scripts/EnemySpawner.cs:136-139 | The loop near the player spawns, in order, what each attempt near the player spawns. |
| Spawner.EnemySpawner.AttemptNearPlayer | Assets/Scripts/EnemySpawner.cs:138-139 | One attempt near the player spawns what the wave's attempt of that index spawns. |
| Spawner.EnemySpawner.WaveSpawns | Assets/Scripts/EnemySpawner.cs:128-146 | A wave never spawns more enemies than it makes attempts. |
| Spawner.EnemySpawner.WaveSpawnsScaled | Assets/Scripts/EnemySpawner.cs:128-146 | Every enemy of a wave carries the health multiplier exactly when it is above 1.001. |
| Spawner.EnemySpawner.NoModeNoSpawns | Assets/Scripts/EnemySpawner.cs:128-146 | Without a prefab, or without spawn points and player, a wave spawns nothing. |
| Spawner.EnemySpawner.SpawnWave | Assets/Scripts/EnemySpawner.cs:108-126 | A wave of enemiesPerWave attempts, spawning, in order, what each attempt spawns; no spawn is scaled. |
| Spawner.EnemySpawner.Frame | Assets/Scripts/EnemySpawner.cs:58-106 | The start-up waits for Playing. It then either gives up for good (no prefab, or no spawn points and no player), reporting no wave and keeping the timer, or enters the loop with the timer at 0 and waves in the same frame. The loop spawns a wave (exactly the enemies of its attempts) each interval while Playing, and stops for good when play stops. The settings are never changed. |
| Spawner.LeavingPlayStopsSpawning | Assets/Scripts/EnemySpawner.cs:92-106 | Once the run leaves Playing the spawn loop stops, and it never resumes. |
| Waves.TwoKeyLinear | Assets/Scripts/WaveDirector.cs:8-9 | The default curves run from their first key at minute 0 to their last at minute 10, staying between them. |
| Waves.TwoKeyLinearMonotone | Assets/Scripts/WaveDirector.cs:8-9 | A rising curve never decreases over time. |
| Waves.WaveCount | Assets/Scripts/WaveDirector.cs:20-24 | The wave size is the count curve at elapsed minutes, rounded to within one half. |
| Waves.DefaultWavesGrow | Assets/Scripts/WaveDirector.cs:8-24 | With the default curve, waves never shrink over a run and hold 4 to 35 enemies. |
| Waves.DefaultCurveValues | Assets/Scripts/WaveDirector.cs:8-9 | Default waves: 4 enemies at the start; 20 enemies at health x2 at 5 minutes; 35 at x3 from 10 minutes. |
| Waves.WaveDirector.constructor | Assets/Scripts/WaveDirector.cs:8-12 | Keeps the curves and interval; the timer starts at 0. |
| Waves.WaveDirector.Default | Assets/Scripts/WaveDirector.cs:8-12 | The default curves and a 2-second interval. |
| Waves.WaveDirector.Update | Assets/Scripts/WaveDirector.cs:14-27 | Only while Playing, a wave fires exactly when the timer expires, sized and scaled by the curves at the elapsed time, and the timer resets to the interval. The wave holds exactly the enemies its attempts spawn. A missing spawner fails before the reset. |
| Waves.FirstFrameFires | Assets/Scripts/WaveDirector.cs:14-27 | A new default director fires on the first Playing frame, with the curve's count. |
| Waves.QuietAfterWave | Assets/Scripts/WaveDirector.cs:17-25 | No further wave fires until a full interval has passed. |
| Upgrades.FireRateGain | Assets/Scripts/WeaponFireRateUpgrade.cs:8-12 | A damage upgrade adds no fire rate. |
| Upgrades.DamageGain | Assets/Scripts/WeaponFireRateUpgrade.cs:20-24 | A fire-rate upgrade adds no damage. |
| Upgrades.Apply | Assets/Scripts/WeaponFireRateUpgrade.cs:8-24 | Adds the upgrade's amount to its one stat of the weapon (if any) and nothing else. |
| Upgrades.ApplyRepeatedly | Assets/Scripts/UpgradeBase.cs:8 | Taking an upgrade n times adds n times its amount: stacking is unbounded. |
| Upgrades.ApplyBothOrders | Assets/Scripts/WeaponFireRateUpgrade.cs:8-24 | Two upgrades give the same weapon in either order. |
| UpgradeMenu.Offer | Assets/Scripts/UpgradeDirector.cs:27-30 | The offer has k entries, taken from the catalog in the shuffled order. |
| UpgradeMenu.OfferDistinct | Assets/Scripts/UpgradeDirector.cs:27-30 | A distinct catalog gives an offer without repeats, drawn from the catalog. |
| UpgradeMenu.FirstPressedIndex | Assets/Scripts/UpgradeDirector.cs:42-54 | Returns the first offered key that went down, and None exactly when none did. |
| UpgradeMenu.UpgradeDirector.constructor | Assets/Scripts/UpgradeDirector.cs:11-15 | Nothing on offer and nothing showing. |
| UpgradeMenu.UpgradeDirector.Default | Assets/Scripts/UpgradeDirector.cs:11-15 | Three choices on the keys 1, 2 and 3. |
| UpgradeMenu.UpgradeDirector.OfferChoices | Assets/Scripts/UpgradeDirector.cs:18-40 | No catalog, or an empty one, changes nothing. Otherwise clamp(choices, 1, n) shuffled entries are shown and time stops. |
| UpgradeMenu.UpgradeDirector.CancelOffer | Assets/Scripts/UpgradeDirector.cs:80-85 | Closes the offer and lets time run. |
| UpgradeMenu.UpgradeDirector.ApplyChoice | Assets/Scripts/UpgradeDirector.cs:56-78 | The chosen upgrade is applied to the player's weapon, or nothing without a player or for an empty slot; the offer closes either way. |
| UpgradeMenu.UpgradeDirector.Update | Assets/Scripts/UpgradeDirector.cs:42-54 | While the offer is showing, the first pressed key chooses and applies its upgrade; with no key nothing changes. |
| UpgradeMenu.OfferThenPickFirst | Assets/Scripts/UpgradeDirector.cs:18-54 | Offering and then pressing 1 applies the first shuffled upgrade and resumes time. |
| UpgradeMenu.AddThenOffer | Assets/Scripts/PlayerXP.cs:24-31 | A level gained opens the upgrade offer (if a director exists); with no level gained, neither the director nor time is touched. |
| Selection.SelectedChoice.constructor | Assets/Scripts/Meta/SelectedChoice.cs:5-6 | Nothing is selected at start. |
| Selection.SelectedChoice.HasSelection | Assets/Scripts/Meta/SelectedChoice.cs:8 | A selection exists only with both references set; with either missing there is none. |
| Selection.SelectedChoice.Clear | Assets/Scripts/Meta/SelectedChoice.cs:10-14 | Both references are cleared, so there is no selection. |
| Selection.SelectedChoice.Store | Assets/Scripts/Meta/CharacterSelectUI.cs:174-175 | Both references are assigned; a selection exists exactly when both are set. |
| Selection.SelectedChoice.LogState | Assets/Scripts/Meta/SelectedChoice.cs:16-22 | Reports the current selection and changes nothing. |
| Selection.StoreAfterClear | Assets/Scripts/Meta/SelectedChoice.cs:8-14 | Clearing and then storing a complete pair leaves a selection. |
| CharacterSelect.NonNull | Assets/Scripts/Meta/CharacterSelectUI.cs:76-106 | Dropping null entries never lengthens the list. |
| CharacterSelect.NonNullExactly | Assets/Scripts/Meta/CharacterSelectUI.cs:76-106 | A choice is kept exactly when it was present. |
| CharacterSelect.NonNullOfPresent | Assets/Scripts/Meta/CharacterSelectUI.cs:76-106 | A list without nulls is kept whole, in order. |
| CharacterSelect.Forward | Assets/Scripts/Meta/CharacterSelectUI.cs:238-247 | The forward step wraps around into range. |
| CharacterSelect.Backward | Assets/Scripts/Meta/CharacterSelectUI.cs:248-257 | The backward step wraps around into range. |
| CharacterSelect.ForwardCovers | Assets/Scripts/Meta/CharacterSelectUI.cs:238-247 | Within one lap, stepping forward reaches every index, so Next finds any valid choice. |
| CharacterSelect.BackwardCovers | Assets/Scripts/Meta/CharacterSelectUI.cs:248-257 | Within one lap, stepping backward reaches every index. |
| CharacterSelect.CharacterSelectUI.constructor | Assets/Scripts/Meta/CharacterSelectUI.cs:41-43 | No choices, no selection, no cards, Play disabled. |
| CharacterSelect.CharacterSelectUI.BuildChoices | Assets/Scripts/Meta/CharacterSelectUI.cs:76-106 | Choices are the library's non-null entries (when a library is set), followed by the manual list's non-null entries, each in order. |
| CharacterSelect.CharacterSelectUI.BuildGrid | Assets/Scripts/Meta/CharacterSelectUI.cs:108-140 | One unhighlighted card per choice when the grid can be built; no cards without a prefab; untouched without a grid. |
| CharacterSelect.CharacterSelectUI.FindFirstValidIndex | Assets/Scripts/Meta/CharacterSelectUI.cs:142-147 | Returns the first valid choice, and -1 exactly when none is valid. |
| CharacterSelect.CharacterSelectUI.UpdateCardHighlights | Assets/Scripts/Meta/CharacterSelectUI.cs:208-215 | Exactly the selected card is highlighted. |
| CharacterSelect.CharacterSelectUI.SetSelection | Assets/Scripts/Meta/CharacterSelectUI.cs:158-184 | An invalid index clears both global references, highlights no card and disables Play. A valid one stores that choice's prefab and data, highlights its card alone and enables Play. |
| CharacterSelect.CharacterSelectUI.Start | Assets/Scripts/Meta/CharacterSelectUI.cs:64-73 | After start-up the first valid choice is selected: its prefab and data are stored globally and its card alone is highlighted. Without one, both references are null and no card is highlighted. Play is enabled exactly when a choice was selected. |
| CharacterSelect.CharacterSelectUI.Next | Assets/Scripts/Meta/CharacterSelectUI.cs:238-247 | Without a valid choice nothing changes. Otherwise the next valid choice forward (wrapping) is selected: its prefab and data are stored globally, its card alone is highlighted, and Play is enabled. |
| CharacterSelect.CharacterSelectUI.Prev | Assets/Scripts/Meta/CharacterSelectUI.cs:248-257 | Without a valid choice nothing changes. Otherwise the next valid choice backward (wrapping) is selected: its prefab and data are stored globally, its card alone is highlighted, and Play is enabled. |
| CharacterSelect.CharacterSelectUI.OnPlayPressed | Assets/Scripts/Meta/CharacterSelectUI.cs:218-234 | The game scene loads exactly when there is a selection and a scene name, with time restored. |
| Pool.PooledObject.constructor | Assets/Scripts/SimplePool.cs:24 | A new copy is active, at the pool's pose. |
| Pool.SimplePool.constructor | Assets/Scripts/SimplePool.cs:7-10 | The queue starts empty. |
| Pool.SimplePool.Awake | Assets/Scripts/SimplePool.cs:12-20 | Queues max(0, prewarm) new inactive copies behind the queue, keeping it valid. |
| Pool.SimplePool.Get | Assets/Scripts/SimplePool.cs:22-28 | Hands out the front of the queue, or a new copy when it is empty, posed and active. |
| Pool.SimplePool.Return | Assets/Scripts/SimplePool.cs:30-34 | Deactivates the object and queues it at the back; the queue stays valid when the object was not queued already. |
| Pool.DoubleReturn | Assets/Scripts/SimplePool.cs:22-34 | Returning an object twice leaves it queued while in use. |

## Left out

- Rendering and presentation are not modelled: visual effects, animator triggers, knockback, the on-screen health bar, the details panel and card text, and portraits.
- Object creation and destruction (`Instantiate`, `Destroy`) and scene loading are recorded as results, not performed.
- Physics overlaps, raycasts, navigation-mesh sampling, path queries and `Random` are oracles supplied by the caller: functions of the query, or precomputed draws.
- The upgrade catalog shuffle is a permutation supplied by the caller. Key presses are a predicate over key codes.
- Floating-point rounding is not modelled: `float` is `real`, and `Mathf.RoundToInt` is exact round-half-to-even.
- `AnimationCurve` is an arbitrary function in `Waves.WaveDirector`. Only the inspector's default two-key linear curves are written out. The curves' stored keys as assets are not modelled.
- XPOrb.cs is not part of this model: an orb is its value, its target and whether it was destroyed.
- Spawned enemies' rotation, the forced layer, the agent warp and the diagnostics logging are not modelled. `SpawnEnemy` is reduced to its position and health multiplier.
- Components disabled on death (agent, colliders, chase AI) are not modelled; the death routine's phases stand for them.
- Enemy.EnemyHealth.OnEnable: returning the routine to `Idle` stands for re-activating the whole GameObject, which stops a running coroutine. A re-enable of the component alone would leave `DeathRoutine` running while EnemyHealth.cs:52-62 resets only the flags. No code in the game does that, because the death sequence never disables this component itself (EnemyHealth.cs:111), so that case is not modelled.
- The dash's per-frame position interpolation is reduced to the distance covered. `invulnSeconds` is declared but never used in DashAbility.cs, so it is not modelled.
- The other ability, passive and menu scripts (ability router and manager, passives, camera, controller, bootstrap, player spawner, simple character select, debug components) are not modelled.
- AutoFire.AutoFireWeapon.Update: requires a non-zero fire rate. With 0, `1f / fireRate` is infinity in C#, which has no `real` counterpart.
- Player.PlayerHealth.TakeDamage: a negative amount raises health (possibly above the maximum), as the source allows. The contract states this by the formula and does not bound health above.
- Waves.WaveDirector.Update: a missing spawner throws in the source. The model reports `SpawnerMissing` and leaves the timer unreset, which is the state the exception leaves behind.
- The `maxStacks` field of UpgradeBase.cs is never read, so stacking is unbounded (see `Upgrades.ApplyRepeatedly`).
- Experience.NextThreshold: rounding is exact, and a threshold beyond int.MaxValue saturates at int.MaxValue. In C#, converting an out-of-range float to `int` gives a platform-dependent value (int.MinValue on common targets), which the clamp would turn into 1.
- Experience.PlayerExperience.AddXP: level and XP are unbounded integers. The 32-bit wrap-around of `currentXP += amount` and `level++` past int.MaxValue is not modelled.
- GlobalXP.PlayerXP.Add: Level, XP and NextXP are unbounded integers. The 32-bit wrap-around of `XP +=` and `Level++` is not modelled, and neither is an out-of-range rounding in `GlobalXP.GrowNextXP`.
- The unreachable dead-check in PlayerHealth.cs:40 adds nothing and is not modelled separately.
