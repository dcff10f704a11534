# Favour bookkeeping of Dungeon Crawl's religion.cc, in Dafny

This project models the part of `crawl-ref/source/religion.cc` that tracks
how a player stands with the gods, and proves properties of that model. It
covers:

- **The piety ledger:** `piety` and `piety_hysteresis`, `piety_max`,
  `lose_piety`, `_gain_piety_point`, `gain_piety`, `set_piety`,
  `piety_scale`, `piety_rank` and `piety_breakpoint`.
- **The penance engine:** `_inc_penance`, `dec_penance`, `active_penance`,
  `xp_penance`, `set_penance_xp_timeout` and the shared wrath counters.
- **Gift throttling:** `gift_timeout`, `num_current_gifts` and
  `num_total_gifts`, as `do_god_gift`, `_inc_gift_timeout` and
  `_delayed_gift_callback` change them.
- **Vehumet's spell gift:** eligibility by gift number and level window,
  unseen spells preferred, and the weighted reservoir pick.
- **The deferred monster queue:** `delayed_monster`, `delayed_monster_done`,
  `_place_delayed_monsters`, including batch counting and message
  pluralisation.
- **Changing gods:** the favour fields that `excommunication`,
  `dock_piety`, `join_religion`, `_set_initial_god_piety`,
  `_transfer_good_god_piety`, `_apply_monk_bonus` and
  `_check_good_god_wrath` touch.

Each part is written in the form the source takes:

- **Pure functions on values.** Module `Favour` gathers the favour fields of
  `you` into one record, `FavourState`. Each entry point is a function
  from the old record to the new one. Module `FavourLemmas` relates those
  functions to one another and to independent descriptions of what they
  should do.
- **The object updated in place.** Class `Player.You` keeps the same fields
  as mutable fields, with the per-god vectors as arrays. Every method ends
  in exactly the state that the matching `Favour` function computes from
  the old state. So everything proved about the functions holds for the
  object.
- **Loops as methods.** Each loop of the source becomes a method proved
  against a specification function:
  - `piety_rank` and its scan;
  - the penance scan over all gods;
  - Vehumet's loops over spells and candidates;
  - the walk over the monster queue.
- **The monster queue as a class.** Class `Placement.DelayedMonsters` owns
  its six queues as sequence fields.

Randomness is explicit input:

- every `one_chance_in`, `random2` and `div_rand_round` roll is passed in;
- the point steps draw from an endless `RollStream`, read from a position
  that the operations hand back;
- `create_monster` is a predicate that says which request produced a
  monster;
- each `do_god_gift` outcome is one roll.

## Model

| member | source | states |
|---|---|---|
| Gods.IsGoodGod | crawl-ref/source/religion.cc:511-533 | a good god (Zin, the Shining One, Elyvilon) is neither evil nor chaotic |
| Gods.GodHatesYourGod | crawl-ref/source/religion.cc:4310-4329 | Ru and your own god never hate; other non-good gods always do; a good god hates exactly the evil gods, and Zin the chaotic ones too; good gods never hate one another |
| Gods.DesertionPenance | crawl-ref/source/religion.cc:3081-3309 | the penance seeded for an abandoned god is between 25 and 150, and above 50 only for Nemelex Xobeh |
| PietyRanks.PietyBreakpoint | crawl-ref/source/religion.cc:4779-4786 | the six breakpoints 30..160 of the table, and 255 for any index off it |
| PietyRanks.BreakpointsAscending | crawl-ref/source/religion.cc:4779-4786 | the breakpoint table is strictly ascending, and 255 lies above every entry |
| PietyRanks.RankDownBetween | crawl-ref/source/religion.cc:4772-4776 | the downward scan gives 0 exactly below breakpoint 0, and otherwise the highest breakpoint reached |
| PietyRanks.RankIsHighestBreakpointReached | crawl-ref/source/religion.cc:4760-4777 | for every god but Xom, the rank is the largest star whose breakpoint the piety has reached |
| PietyRanks.RankAtBreakpoint | crawl-ref/source/religion.cc:4772-4776 | piety exactly at breakpoint i gives rank i + 1 |
| PietyRanks.RankMonotone | crawl-ref/source/religion.cc:4760-4777 | rank never decreases as piety rises, under both Xom's table and the ordinary one |
| PietyRanks.RankStepAtMostOne | crawl-ref/source/religion.cc:4760-4777 | one more point of piety raises the rank by at most one |
| PietyRanks.ComputePietyRank | crawl-ref/source/religion.cc:4760-4777 | both for loops of piety_rank compute PietyRank: 0 exactly below breakpoint 0, and the breakpoint of a positive rank is reached |
| Wrath.XpPenance | crawl-ref/source/religion.cc:1074-1081 | xp_penance holds exactly for Ashenzari, Gozag and Hepliaklqana, while they hold penance and are available, and never together with active wrath |
| Wrath.NonGoodGodAlwaysActive | crawl-ref/source/religion.cc:1057-1071 | a non-good, non-exempt god with penance (Nemelex only above 100) is actively angry whatever you worship |
| Wrath.GoodGodActiveOnlyAgainstOpposedGods | crawl-ref/source/religion.cc:1057-1071 | a good god's penance is active exactly when it holds penance and you worship an evil god, or, for Zin, a chaotic one |
| Wrath.RuNeverActive | crawl-ref/source/religion.cc:1057-1071 | Ru's penance is never active |
| Dice.DivRandRound | crawl-ref/source/religion.cc:2828 | div_rand_round, as gain_piety calls it, is the C quotient, or one more when there is a positive remainder and the roll lets it round up; it is never negative for a non-negative numerator |
| Favour.LosePiety | crawl-ref/source/religion.cc:2851-2873 | the loss goes first into the hysteresis bank, up to PIETY_HYSTERESIS_LIMIT, and the rest comes off piety, floored at 0; nothing else changes, and a non-positive loss is a no-op |
| Favour.GiftTimeoutAfter | crawl-ref/source/religion.cc:1372-1378 | the guarded add of _inc_gift_timeout is min(200, timeout + val) |
| Favour.IncGiftTimeout | crawl-ref/source/religion.cc:1372-1378 | the timeout never falls and never passes 200, and only the timeout changes |
| Favour.BumpGifts | crawl-ref/source/religion.cc:2222-2223 | only the two gift counters change, and the ledger stays well formed (the increments are stated in FavourLemmas.DoGodGiftEffect) |
| Favour.DoGodGift | crawl-ref/source/religion.cc:2139-2407 | only the gift timeout and the two gift counters change, and the ledger stays well formed (effect in FavourLemmas.DoGodGiftEffect) |
| Favour.DelayedGiftCallback | crawl-ref/source/religion.cc:1682-1695 | only the gift timeout and the two gift counters change (effect in FavourLemmas.DelayedGiftCallbackEffect) |
| Favour.VehumetNothingLeft | crawl-ref/source/religion.cc:2077-2090 | only the two gift counters change (effect in FavourLemmas.VehumetNothingLeftEffect) |
| Favour.SetPenanceXpTimeout | crawl-ref/source/religion.cc:1219-1230 | the wrath-XP counter is armed with at least 1 only when it is not already running; only that counter changes |
| Favour.IncPenanceAsWritten | crawl-ref/source/religion.cc:1246-1247 | the stored counter as the source writes it: always within 0..MAX_PENANCE, and the capped sum whenever the sum stays below 256 |
| Favour.IncPenance | crawl-ref/source/religion.cc:1232-1360 | only the penance vector and the wrath-XP counter change, and the ledger stays well formed (effect in FavourLemmas.IncPenanceEffect) |
| Favour.ClearWrathIfCalm | crawl-ref/source/religion.cc:1185-1199 | only the two wrath counters change (effect in FavourLemmas.ClearWrathIfCalmEffect) |
| Favour.DecPenance | crawl-ref/source/religion.cc:1083-1200 | no other god's penance changes, the god's penance only falls and stays non-negative, and only penance and the wrath counters change |
| Favour.Advance | crawl-ref/source/religion.cc:2684-2691 | only piety and hysteresis change, within their bounds (effect in FavourLemmas.AdvanceEffect) |
| Favour.GainPietyPointFree | crawl-ref/source/religion.cc:2633-2796 | after the penance check, a point step raises piety by at most one and changes only piety, hysteresis, the timeout and the gift counters |
| Favour.GainPietyPoint | crawl-ref/source/religion.cc:2624-2797 | piety rises by at most one and hysteresis never rises; only the current god's penance can change, and only while it is owed |
| Favour.GainPietyPoints | crawl-ref/source/religion.cc:2829-2830 | n point steps raise piety by at most n; other gods' penance is untouched, and so is the whole vector when nothing is owed |
| Favour.PietyScale | crawl-ref/source/religion.cc:2585-2588 | piety_scale leaves an amount alone without faith, and never lowers a non-negative amount (bounds in FavourLemmas.PietyScaleBounds) |
| Favour.GainPointCount | crawl-ref/source/religion.cc:2823-2828 | the step count of gain_piety is never negative for a non-negative gain, and is the gain itself over 1 when it is not scaled or there is no faith |
| Favour.RaisePietyMax | crawl-ref/source/religion.cc:2831-2840 | only piety_max changes, and the ledger stays well formed |
| Favour.GainPiety | crawl-ref/source/religion.cc:2810-2842 | something happens exactly for a positive gain to a god who takes piety (not no god, Xom or Gozag); otherwise nothing changes; piety rises by at most the steps taken, and piety_max follows piety upwards |
| Favour.SetPietyTarget | crawl-ref/source/religion.cc:2603-2606 | Ru's target is capped at breakpoint 5, and every other god's is left as given |
| Favour.SetPietyRounds | crawl-ref/source/religion.cc:2610-2621 | when the loop reaches its target, piety equals the target; the religion is unchanged |
| Favour.SetPietyPass | crawl-ref/source/religion.cc:2610-2621 | a pass that finds piety at the target stops at once, reports it reached and changes nothing; a reached target is the piety left |
| Favour.SetPiety | crawl-ref/source/religion.cc:2598-2622 | when set_piety finishes, piety equals the Ru-capped target |
| Favour.Excommunication | crawl-ref/source/religion.cc:2993-3338 | the player worships no god, with piety and hysteresis 0 (effect in FavourLemmas.ExcommunicationEffect) |
| Favour.DockPiety | crawl-ref/source/religion.cc:2543-2582 | the ledger stays well formed (outcome in FavourLemmas.DockPietyOutcome) |
| Favour.BonusGain | crawl-ref/source/religion.cc:3855-3860 | the tutorial bonus (and the monk bonus of `_apply_monk_bonus`, lines 3720-3730) changes nothing when it does not apply, and never lowers piety (its amount in FavourLemmas.BonusGainAmount) |
| Favour.TransferGoodGodPiety | crawl-ref/source/religion.cc:3733-3765 | no piety moves unless both the new and the saved god are good and the saved piety is above breakpoint 0; piety never falls (its amount in FavourLemmas.TransferGoodGodPietyAmount) |
| Favour.StartingPiety | crawl-ref/source/religion.cc:3816-3852 | the new god's penance is zeroed and nobody else's changes; Xom starts at HALF_MAX_PIETY, Ru at 10, others at 15; all but Xom clear hysteresis and the timeout |
| Favour.SetInitialGodPiety | crawl-ref/source/religion.cc:3816-3863 | only the new god's penance is zeroed; starting piety is at least the god's base; hysteresis is 0 except under Xom |
| Favour.JoinBonuses | crawl-ref/source/religion.cc:3816-3861 | the starting piety, the tutorial's gain and the monk bonus leave the good-god bank as it was |
| Favour.CheckGoodGodWrath | crawl-ref/source/religion.cc:3797-3813 | only the wrath-XP counter changes, and it never falls |
| Favour.LeaveForJoin | crawl-ref/source/religion.cc:4059-4070 | the player is left with no god, and the abandoned god alone gets its desertion penance; leaving a good god banks that god with its piety, leaving any other god empties the bank, and with no god to leave the bank is seeded from the current piety only when it was unset |
| Favour.Welcome | crawl-ref/source/religion.cc:4072-4139 | the player worships the new god, whose penance alone is zeroed, with at least its starting piety; the saved good-god piety is wiped |
| Favour.FinishJoin | crawl-ref/source/religion.cc:4115-4139 | Lugonu's bonus and the good-god wrath never lower piety or change penance that is not owed; the saved good-god piety is wiped |
| Favour.JoinReligion | crawl-ref/source/religion.cc:4051-4149 | the player worships the new god, and the saved good-god piety is wiped |
| FavourLemmas.IncPenanceEffect | crawl-ref/source/religion.cc:1232-1360 | _inc_penance is a no-op for val <= 0; otherwise the god's penance is the capped sum, no other god's changes, and the XP timeout is armed only if it was idle |
| FavourLemmas.DecPenanceEffect | crawl-ref/source/religion.cc:1083-1183 | dec_penance is a no-op for val <= 0 or no penance; otherwise penance drops by val, floored at 0, and no other god's changes |
| FavourLemmas.DecPenanceClearsWrath | crawl-ref/source/religion.cc:1083-1200 | the wrath counters are zeroed exactly when the call mollifies the god (reaching 0, or Nemelex falling to 100) and no god is left actively angry; otherwise they are kept |
| FavourLemmas.MollifiedGodIsCalm | crawl-ref/source/religion.cc:1083-1200 | a god paid off in full is no longer actively angry |
| FavourLemmas.IncThenDecRestoresPenance | crawl-ref/source/religion.cc:1083-1360 | below the cap, dec_penance by val undoes _inc_penance by val |
| FavourLemmas.IncPenanceWrapForgets | crawl-ref/source/religion.cc:1355-1356 | a god at MAX_PENANCE wronged again for 56 ends with 0 penance, where the cap keeps it at 200 |
| FavourLemmas.IncPenanceWrapFresh | crawl-ref/source/religion.cc:1246-1247 | a god with no penance given 300 at once is stored with 44, where the cap gives 200 |
| FavourLemmas.IncPenanceAsWrittenBelowWrap | crawl-ref/source/religion.cc:1354-1356 | while the sum stays below 256, the 8-bit store and the intended cap agree |
| FavourLemmas.DoGodGiftEffect | crawl-ref/source/religion.cc:2139-2407 | a gift is considered only when forced, or with no penance and no timeout; a gift granted counts one more current and total gift for the god alone and raises the timeout, saturating at 200; otherwise nothing changes |
| FavourLemmas.DelayedGiftCallbackEffect | crawl-ref/source/religion.cc:1682-1695 | a gift that placed a monster counts one more gift for the current god and raises the timeout, saturating at 200; one that placed none changes nothing |
| FavourLemmas.VehumetNothingLeftEffect | crawl-ref/source/religion.cc:2077-2090 | with nothing left to offer, the counters still advance while at most 12 gifts have been given, and nothing changes afterwards |
| FavourLemmas.ClearWrathIfCalmEffect | crawl-ref/source/religion.cc:1185-1199 | the stored wrath count and wrath XP are zeroed exactly when no god is actively angry, and otherwise nothing changes |
| FavourLemmas.AdvanceEffect | crawl-ref/source/religion.cc:2684-2691 | a banked loss is paid off by one while piety stays; with an empty bank piety rises by one, up to MAX_PIETY |
| FavourLemmas.PointGrantedExactly | crawl-ref/source/religion.cc:2624-2691 | a point step raises piety exactly when nothing is owed, the timeout lets it through, it does not taper, Ru is below breakpoint 5, no loss is banked and piety is below the cap |
| FavourLemmas.PointPaysPenanceFirst | crawl-ref/source/religion.cc:2626-2631 | under penance, a point step only pays one point of penance |
| FavourLemmas.PointHysteresisBeforePiety | crawl-ref/source/religion.cc:2684-2691 | a step that pays off banked loss does not raise piety, and piety rises only with an empty bank |
| FavourLemmas.PointRankStep | crawl-ref/source/religion.cc:2693-2699 | a point step never lowers the rank and raises it by at most one |
| FavourLemmas.PointsPayPenance | crawl-ref/source/religion.cc:2829-2830 | while at least n is owed, n point steps pay off exactly n penance and leave piety, hysteresis, timeout and gifts alone |
| FavourLemmas.PointWithoutGift | crawl-ref/source/religion.cc:2633-2796 | a point step whose gift roll yields nothing gives no gift and never raises the timeout |
| FavourLemmas.PointsWithoutGifts | crawl-ref/source/religion.cc:2829-2830 | the same for n steps whose gift rolls all yield nothing |
| FavourLemmas.GainPietyRefused | crawl-ref/source/religion.cc:2812-2820 | a non-positive gain, or a gain under no god, Xom or Gozag, changes nothing and reports false |
| FavourLemmas.PietyScaleBounds | crawl-ref/source/religion.cc:2585-2588 | a non-negative amount gains between faith times a quarter of it and faith times one more than that, and exactly faith quarters when it divides by 4 |
| FavourLemmas.GainPietyUnscaledSteps | crawl-ref/source/religion.cc:2823-2830 | an unscaled gain over 1 runs exactly original_gain point steps |
| FavourLemmas.SetPietyDownReached | crawl-ref/source/religion.cc:2610-2621 | set_piety to a lower piety reaches it |
| FavourLemmas.PointGrants | crawl-ref/source/religion.cc:2633-2797 | with nothing owed, no banked loss, room below the cap (Ru below breakpoint 5) and a roll that neither stalls, tapers nor gives, a point step raises piety by exactly one |
| FavourLemmas.PointsGrant | crawl-ref/source/religion.cc:2829-2830 | n such steps in a row raise piety by exactly n |
| FavourLemmas.SetPietyUpReached | crawl-ref/source/religion.cc:2598-2622 | set_piety to a higher piety, for a god who takes gains, with nothing owed, no banked loss and granting rolls, reaches the Ru-capped target in two passes, using exactly the difference in steps |
| FavourLemmas.SetPietyUpRefused | crawl-ref/source/religion.cc:2610-2621 | set_piety upwards under a god that takes no piety stops at once and changes nothing |
| FavourLemmas.ExcommunicationEffect | crawl-ref/source/religion.cc:2993-3309 | the abandoned god gets its desertion penance and nobody else's changes; its current gifts are zeroed and the timeout and totals are kept; on voluntary departure from a good god the bank holds that god and the piety it had, and otherwise the bank is emptied to GOD_NO_GOD and 0 |
| FavourLemmas.JoinCarriesGoodGodSurplus | crawl-ref/source/religion.cc:4059-4086 | moving from one good god to another keeps the old god and its piety in the bank through the join bonuses, and the transfer then takes half the surplus over breakpoint 0 (rounded by the roll) in gain rolls, its state being exactly those gains |
| FavourLemmas.JoinKeepsInitialPiety | crawl-ref/source/religion.cc:4086-4149 | the rest of join_religion never lowers the piety _set_initial_god_piety leaves |
| FavourLemmas.JoinKeepsGrudges | crawl-ref/source/religion.cc:4051-4149 | joining zeroes only the new god's penance, gives the abandoned god its desertion penance, and leaves every other grudge as it was |
| FavourLemmas.JoinClearsHysteresis | crawl-ref/source/religion.cc:3839-3851 | joining any god but Xom leaves no banked loss |
| FavourLemmas.JoinStartingPiety | crawl-ref/source/religion.cc:3816-3863 | after joining, piety is at least HALF_MAX_PIETY for Xom, 10 for Ru and 15 otherwise |
| FavourLemmas.DockPietyOutcome | crawl-ref/source/religion.cc:2543-2582 | if the scaled loss drops piety below 1 the player is excommunicated and the god gets its desertion penance; otherwise piety is the reduced piety and penance rises by the scaled penance, capped |
| FavourLemmas.GoodGodWrathArms | crawl-ref/source/religion.cc:3797-3813 | the wrath-XP counter is armed exactly when some good god other than the old one holds penance and hates your new god; otherwise nothing changes |
| Player.You.LosePiety | crawl-ref/source/religion.cc:2851-2873 | the object ends in Favour.LosePiety of its old state |
| Player.You.IncGiftTimeout | crawl-ref/source/religion.cc:1372-1378 | the object ends in Favour.IncGiftTimeout of its old state |
| Player.You.BumpGifts | crawl-ref/source/religion.cc:2222-2223 | the object ends in Favour.BumpGifts of its old state |
| Player.You.DoGodGift | crawl-ref/source/religion.cc:2139-2407 | the object ends in Favour.DoGodGift of its old state |
| Player.You.DelayedGiftCallback | crawl-ref/source/religion.cc:1682-1695 | the object ends in Favour.DelayedGiftCallback of its old state |
| Player.You.SetPenanceXpTimeout | crawl-ref/source/religion.cc:1219-1230 | the object ends in Favour.SetPenanceXpTimeout of its old state |
| Player.You.SetPenance | crawl-ref/source/religion.cc:1367-1370 | the one penance entry becomes v and nothing else changes |
| Player.You.IncPenance | crawl-ref/source/religion.cc:1232-1360 | the object ends in Favour.IncPenance of its old state |
| Player.You.AnyActivePenance | crawl-ref/source/religion.cc:1188-1196 | the god_iterator scan answers true exactly when some god is actively angry |
| Player.You.ClearWrathIfCalm | crawl-ref/source/religion.cc:1185-1199 | the object ends in Favour.ClearWrathIfCalm of its old state |
| Player.You.DecPenance | crawl-ref/source/religion.cc:1083-1200 | the object ends in Favour.DecPenance of its old state |
| Player.You.GainPietyPoint | crawl-ref/source/religion.cc:2624-2797 | the object ends in Favour.GainPietyPoint of its old state |
| Player.You.GainPietyPointFree | crawl-ref/source/religion.cc:2633-2796 | the object ends in Favour.GainPietyPointFree of its old state |
| Player.You.GainPietyPoints | crawl-ref/source/religion.cc:2829-2830 | the while loop of point steps ends in Favour.GainPietyPoints |
| Player.You.RaisePietyMax | crawl-ref/source/religion.cc:2831-2840 | the object ends in Favour.RaisePietyMax of its old state |
| Player.You.GainPiety | crawl-ref/source/religion.cc:2810-2842 | the object, the steps used and the result are those of Favour.GainPiety |
| Player.You.SetPietyPass | crawl-ref/source/religion.cc:2610-2621 | one pass of the do/while loop matches Favour.SetPietyPass |
| Player.You.SetPiety | crawl-ref/source/religion.cc:2598-2622 | the loop ends in the state and outcome of Favour.SetPiety |
| Player.You.Excommunication | crawl-ref/source/religion.cc:2993-3338 | the object ends in Favour.Excommunication of its old state |
| Player.You.DockPiety | crawl-ref/source/religion.cc:2543-2582 | the object ends in Favour.DockPiety of its old state |
| Player.You.BonusGain | crawl-ref/source/religion.cc:3720-3730 | the object and stream position are those of Favour.BonusGain |
| Player.You.TransferGoodGodPiety | crawl-ref/source/religion.cc:3733-3765 | the object and stream position are those of Favour.TransferGoodGodPiety |
| Player.You.StartingPiety | crawl-ref/source/religion.cc:3816-3852 | the object ends in Favour.StartingPiety of its old state |
| Player.You.SetInitialGodPiety | crawl-ref/source/religion.cc:3816-3863 | the object and stream position are those of Favour.SetInitialGodPiety |
| Player.You.CheckGoodGodWrath | crawl-ref/source/religion.cc:3797-3813 | the loop over the three good gods ends in Favour.CheckGoodGodWrath |
| Player.You.LeaveForJoin | crawl-ref/source/religion.cc:4059-4070 | the object ends in Favour.LeaveForJoin of its old state |
| Player.You.Welcome | crawl-ref/source/religion.cc:4072-4139 | the object and stream position are those of Favour.Welcome |
| Player.You.FinishJoin | crawl-ref/source/religion.cc:4115-4139 | the object and stream position are those of Favour.FinishJoin |
| Player.You.JoinReligion | crawl-ref/source/religion.cc:4051-4149 | the object and stream position are those of Favour.JoinReligion |
| Vehumet.SplitUpTo | crawl-ref/source/religion.cc:2055-2076 | the unseen and backup sets hold exactly the qualifying spells of the table, split by whether they were seen or gifted before |
| Vehumet.SplitSpells | crawl-ref/source/religion.cc:2055-2076 | the for loop over every spell builds SplitUpTo of the whole table |
| Vehumet.EligibleSpells | crawl-ref/source/religion.cc:2037-2093 | the method returns EligibleGiftSpells, including both early returns and the backup fallback |
| Vehumet.FindPick | crawl-ref/source/religion.cc:2104-2114 | the weighted loop returns Pick of the candidates |
| Vehumet.FindSpellGift | crawl-ref/source/religion.cc:2101-2115 | the gift is Pick of the eligible spells, and the counters advance exactly when eligibility says so |
| Vehumet.PickIsLastHit | crawl-ref/source/religion.cc:2104-2114 | the running total is the sum of the weights; the pick is None exactly when no roll succeeds, and is otherwise the last candidate whose roll succeeds |
| Vehumet.PickIsCandidate | crawl-ref/source/religion.cc:2104-2114 | a picked spell is one of the candidates |
| Vehumet.PositiveWeightsPickSomething | crawl-ref/source/religion.cc:2095-2114 | with every weight positive and at least one candidate, the pick is never SPELL_NO_SPELL |
| Vehumet.SingletonPicked | crawl-ref/source/religion.cc:2104-2114 | a lone candidate of positive weight is always picked |
| Vehumet.LastHitWins | crawl-ref/source/religion.cc:2104-2114 | a successful roll on the last candidate makes it the gift |
| Vehumet.OfferedSpellsQualify | crawl-ref/source/religion.cc:2041-2076 | every spell on offer is valid, not excluded, not known, a player spell supported by Vehumet, within the gift's level window, and that window's minimum is reached |
| Vehumet.UnseenPreferred | crawl-ref/source/religion.cc:2071-2092 | when any qualifying spell is unseen, only unseen spells are offered, and that one among them |
| Vehumet.BumpOnlyWhenNothingLeft | crawl-ref/source/religion.cc:2077-2090 | the counters advance exactly when fewer than 13 gifts are given, the level window opens, and no spell qualifies |
| Vehumet.ExcludedNeverPicked | crawl-ref/source/religion.cc:2101-2115 | an excluded spell is never the gift |
| Placement.ReplaceAllAbsent | crawl-ref/source/religion.cc:5049-5063 | replace_all leaves a message without any occurrence of find unchanged |
| Placement.PluraliseWithoutTokens | crawl-ref/source/religion.cc:5049-5063 | a message without '@' is spoken as written, whatever the count |
| Placement.PluralTokenKept | crawl-ref/source/religion.cc:5049-5058 | the article replacements leave the "@s@" token intact |
| Placement.PluralArticleA | crawl-ref/source/religion.cc:5049-5063 | " @a@ " before a noun becomes " a " for one monster and a single space for any other count |
| Placement.PluralArticleAn | crawl-ref/source/religion.cc:5049-5063 | " @an@ " before a noun becomes " an " for one monster and a single space for any other count |
| Placement.PluralNoun | crawl-ref/source/religion.cc:5049-5063 | a noun followed by "@s@" comes out singular for one monster and with "s" for any other count, the text after it kept |
| Placement.PluralTemplateA | crawl-ref/source/religion.cc:5049-5063 | in a message with an article " @a@ " and a plural noun, both agree with the count and the text around them is kept |
| Placement.PluralTemplateAn | crawl-ref/source/religion.cc:5049-5063 | the same for the article " @an@ " |
| Placement.YredServantMessage | crawl-ref/source/religion.cc:2243 | Yredelemnul's servant message says " grants you an undead servant!" for one monster and " grants you undead servants!" for any other count |
| Placement.Step | crawl-ref/source/religion.cc:5013-5088 | one request advances the trigger front by at most one, and after a fired trigger prev_god is GOD_NO_GOD |
| Placement.Run | crawl-ref/source/religion.cc:5011-5089 | the walk never fires more triggers than were queued |
| Placement.Visit | crawl-ref/source/religion.cc:5013-5088 | one loop iteration over the queues computes Step |
| Placement.DelayedMonsters.constructor | crawl-ref/source/religion.cc:4989-5005 | all six queues start empty |
| Placement.DelayedMonsters.DelayedMonster | crawl-ref/source/religion.cc:4989-4993 | the request and its callback are appended, and nothing else changes |
| Placement.DelayedMonsters.DelayedMonsterDone | crawl-ref/source/religion.cc:4995-5005 | a trigger at the last request, both messages and the done callback are appended |
| Placement.DelayedMonsters.PlaceDelayedMonsters | crawl-ref/source/religion.cc:5007-5096 | the events are those of Run over the queue; five queues are cleared; the done callbacks lose exactly the fired ones |
| Placement.BatchCountsItsMonsters | crawl-ref/source/religion.cc:5016-5036 | inside one god's batch, the count handed on is the number of monsters created since the batch began |
| Placement.NewGodStartsAtZero | crawl-ref/source/religion.cc:5016-5025 | a request for a new god hands its callback a count of 0 |
| Placement.AfterTriggerCount | crawl-ref/source/religion.cc:5065 | after a trigger, a request for a real god starts again from 0, while a GOD_NO_GOD request inherits the count |
| Placement.MessageChoice | crawl-ref/source/religion.cc:5043-5063 | a batch speaks its success text when it placed a monster and its failure text otherwise: as written when it has no tokens, with its article, its "@s@" noun, or both agreeing with the count when it has, the surrounding text kept |
| Placement.RunFiresInOrder | crawl-ref/source/religion.cc:5038-5069 | with strictly increasing trigger positions, the triggers fired are exactly those before the current request |
| Placement.EveryTriggerFires | crawl-ref/source/religion.cc:5038-5069 | when every trigger position is in range and they strictly increase, every queued trigger fires |
| Placement.DoubleDoneLeavesCallback | crawl-ref/source/religion.cc:5038-5096 | two triggers at one position fire once; the second done callback stays queued while its trigger is cleared |

## Left out

- Messages, notes, milestones, screen redraws, tiles and hints are left
  out. `god_speaks` and the text of the batch messages appear only as
  events. The capitalisation and trimming of a spoken message
  (`uppercase_first`, `trim_string`) are not modelled, and neither is
  the god's name that `_place_delayed_monsters` puts in front of a message
  starting with a space or an apostrophe (religion.cc:5079-5080). So a
  `Speech` event holds " grants you an undead servant!" where the game
  says "Yredelemnul grants you an undead servant!".
- Monster and item creation, acquirement, and the contents of each god's
  gift are left out. Each step's gift is a `GiftOutcome` roll, and
  `create_monster` is a predicate on request indices.
- Passives are left out: halo and umbra, orc conversion, companions,
  Cheibriados' stat boost and Qazlal's shield. So are the per-god actions
  of `excommunication` and `on_join` other than Lugonu's bonus, including
  Gozag's gold, Ashenzari's bondage and Vehumet's gift list.
- Sprint piety scaling (`sprint_modify_piety`) is left out: the model is a
  normal game.
- Favour.PietyScale, Favour.GainPointCount and FavourLemmas.PietyScaleBounds
  take faith as a non-negative count. `you.faith()` is defined outside
  religion.cc, and its bounds are not part of this model. The forlorn
  scaling that gain_piety's comment names (religion.cc:2804-2805) is not
  modelled: no code in religion.cc applies it, and piety_scale
  (religion.cc:2585-2588) scales by faith alone.
- `_join_zin` (religion.cc:3987-4010, run as Zin's `on_join` at line 4048)
  tithes the player's gold through `zin_tithe`, which can raise piety at
  joining; it is left out with the other per-god `on_join` actions, so the
  model's join never gives that gain.
- `handle_god_time`, `religion_turn_start` and `religion_turn_end` are left
  out, as are the Ru sacrifice properties, `god_pitch`,
  `player_can_join_god` and the likes/dislikes tables: they change piety
  through the entry points modelled here or not at all.
- `do_god_gift` is modelled by its gate and its bookkeeping: the timeouts
  come in through the roll, and the god-specific choice is left out.
- Favour.DoGodGift: counts a granted gift once. A Vehumet gift at 12 total
  gifts asks for three offers (religion.cc:2120); when a later search finds
  nothing left, `_vehumet_eligible_gift_spells` bumps the counters
  (2082-2086) before `do_god_gift` bumps them again (2376-2377). The model
  has that first bump only as Favour.VehumetNothingLeft, not chained into
  the gift.
- `div_rand_round` and `x_chance_in_y` are defined in `random.cc`, which is
  not part of this model; Dice.DivRandRound and Dice.XChanceInY follow
  their definitions there, with the random draw as an input.
- Favour.SetPiety: its own contract states only what a finished run
  leaves. That it finishes is proved for a lower target in
  FavourLemmas.SetPietyDownReached, and for a higher one only when nothing
  is owed, no loss is banked and every roll grants, in
  FavourLemmas.SetPietyUpReached; a higher target under a timeout or a
  taper that stalls every step is not shown to be reached.
- Vehumet's spell facts are inputs: valid, supported, known, player spell,
  level, seen or old gift, and elemental preference. `spell_type` is a
  number. `_vehumet_get_spell_gifts` is left out, as is the
  `vehumet_gifts` list it fills; so is the `DUR_VEHUMET_GIFT` gate.
- `replace_all` is written out here as left-to-right replacement;
  `stringutil.cc` is not part of this model.
- Favour.SetPietyRounds: runs for at most `rounds` passes. A run that has
  not reached its target by then reports `reached == false` rather than
  looping on, so the model says nothing about a set_piety that would not
  finish.
- Placement.DelayedMonsters.PlaceDelayedMonsters: the pop_front calls of
  the trigger, message and done-callback deques are a front index into
  each sequence. Callbacks are identities, not code, and the `monster*`
  they receive is not modelled.
- `exp_needed` and the player's level, behind the wrath-XP step, are left
  out. The step is an input, `xpStep`.
- `excommunication` keeps `gift_timeout` and `num_total_gifts` and sets
  the religion to `GOD_NO_GOD`; the timeout is reset only later, by
  `_set_initial_god_piety`.
- During `join_religion` the bonus gains (tutorial, monk, Lugonu, good-god
  transfer) run through `_gain_piety_point`, so they may give gifts. The
  model lets them, as the code does.
- `_place_delayed_monsters` never clears `_delayed_done_callbacks`; it only
  pops the fired ones. The model keeps the unfired ones, as the code does.

## Findings

| source | as written | input that shows it | evidently intended | confidence | as-written member | corrected member |
|---|---|---|---|---|---|---|
| crawl-ref/source/religion.cc:1246-1247 | on the branch for a god not yet under penance, `you.penance[god] += val` stores into an unsigned 8-bit element before `min((uint8_t)MAX_PENANCE, …)` caps it, so a value above 255 wraps first | a god with no penance given 300 at once is stored with 44 instead of 200 (FavourLemmas.IncPenanceWrapFresh) | the counter saturates at MAX_PENANCE | not executed | Favour.IncPenanceAsWritten | Favour.IncPenance |
| crawl-ref/source/religion.cc:1355-1356 | on the branch for a god already under penance, the same store wraps a sum above 255 before the cap | a god at MAX_PENANCE (200) given 56 more penance ends at 0, its grudge forgotten (FavourLemmas.IncPenanceWrapForgets) | the counter saturates at MAX_PENANCE | not executed | Favour.IncPenanceAsWritten | Favour.IncPenance |
