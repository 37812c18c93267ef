# Werewolf role planner and role assignment, in Dafny

This project models the logic of a browser app for the party game *Loups-Garous*
("Werewolves"). Two JavaScript files hold that logic:

- `js/roles.js` holds the role catalog `ROLES` and two functions:
  - `calculateRoleDistribution(n)` turns a head-count between 8 and 20 into an
    ordered map from role key to quantity;
  - `isBalanced(distribution)` judges such a map by two ratios.
- `js/game.js` holds the class `WerewolfGame`:
  - its state is the players (id to name), the role locks (id to role), the
    last assignment (id to role) and the flag `isAssigningRoles`;
  - its methods add and remove players, lock and unlock roles, reset the game
    and deal the roles: expand the distribution into a pool, pin the locked
    players, shuffle the rest of the pool in place with Fisher–Yates, and deal
    it to the unlocked players in order.

The modules follow that structure:

| file | module | models |
|---|---|---|
| `ordered_maps.dfy` | `Wrappers`, `OrderedMaps` | JavaScript `Map`: a sequence of entries in insertion order, where `set` replaces in place or appends and `delete` removes |
| `roles.dfy` | `Roles` | the catalog keys and teams, role keys (a catalog key or any other string), distributions, and their sum |
| `planner.dfy` | `Planner` | `calculateRoleDistribution`: a functional specification `PlanFor`, the method with the source's loops proved equal to it, and the closed form of every quantity |
| `balance.dfy` | `Balance` | `isBalanced`: the specification `Judge` with JavaScript's division semantics, the method with integer cross-multiplication proved equal to it, and the verdict on every plan |
| `assignment.dfy` | `Assignment` | the steps of `assignRoles`: pool expansion, locks, the in-place shuffle, the deal |
| `names.dfy` | `Names` | `trim`, UTF-16 `length` and case-insensitive comparison, as used by `handlePlayerSubmit` |
| `game.dfy` | `Game` | the class `WerewolfGame` with its fields and state-changing methods |

Each method that runs a loop is proved against a specification function. The
promised properties are then proved about those functions. Three points of the
code a reader might not expect:

- `villagerCount` sums only the team `villagers`, so the neutral BEAR is excluded.
- Both bounds of the special-role ratio, 0.2 and 0.6, are inclusive.
- With no werewolves, `villagers / 0` is `Infinity`. It passes the ratio test
  when there is at least one villager. With no players, `0 / 0` is `NaN` and fails.

One more point concerns the catalog. `ROLES[key]` is also defined for the names an
object literal inherits from `Object.prototype` (`constructor`, `toString`, …).
`Balance.Lookup` models that lookup, and "## Findings" below reports what it lets through.

## Model

| member | source | states |
|---|---|---|
| Roles.Parse | js/roles.js:1-105 | a string is read as a catalog role exactly when it is one of the eleven keys of `ROLES` |
| Roles.SpellParse | js/roles.js:1-105 | spelling a role key and reading the string back gives the same key |
| Roles.ParseSpell | js/roles.js:1-105 | reading any string as a role key and spelling it gives the string back |
| Roles.Spell | js/roles.js:1-105 | the definition of the JavaScript string of a role key; `ParseSpell`, `SpellParse` and `SpellInjective` state that it loses nothing |
| Roles.SpellInjective | js/roles.js:1-105 | two role keys are equal exactly when their JavaScript strings are, so a map keyed by role keys holds the same entries as the `Map` keyed by strings |
| Roles.TeamOf | js/roles.js:4-98 | the definition of the `team` field of each catalog entry: WEREWOLF is on the werewolves' team, BEAR is neutral, every other role is a villager; `Balance.CatalogTeams` states the consequence for the counts |
| Roles.CountOf | js/roles.js:176 | the definition of `get(key)`, with 0 for a missing key; `CountOfSet` and `CountOfSnoc` state how `set` and a new entry change it |
| Roles.Sum | js/roles.js:188 | the definition of the `reduce` over `values()`; `TotalOf` computes it, and `SumSet` states how `set` changes it |
| Roles.CountOfSet | js/roles.js:165 | after `set(k, v)`, the count of `k` is `v` and every other count is unchanged |
| Roles.CountOfSnoc | js/roles.js:143 | appending the entry of a new key adds its quantity to that key's count only |
| Roles.TotalOf | js/roles.js:188 | the `reduce` over `values()` returns the sum of all quantities |
| Roles.SumSet | js/roles.js:143 | `set(key, v)` moves the sum by `v` minus the key's previous quantity |
| Roles.WellFormedCount | js/roles.js:142-143 | in a map the planner builds, a key is present exactly when its quantity is at least 1, and only catalog keys are present |
| Planner.CalculateRoleDistribution | js/roles.js:107-194 | the method returns exactly the specification `Plan(count)` for every finite JavaScript number `count` |
| Planner.BuildDistribution | js/roles.js:116-193 | the steps after validation, run with the source's loops, give `PlanFor(n)` |
| Planner.AddMandatoryRoles | js/roles.js:126-132 | the `forEach` over SEER, WITCH, HUNTER sets each to 1 |
| Planner.AddRolesIfPossible | js/roles.js:139-148 | `addRolesIfPossible` grants one slot per catalog role, in order, while slots remain and only when the threshold is met |
| Planner.AddOptionalRoles | js/roles.js:151-153 | the three tier calls run in threshold order |
| Planner.SetMandatory | js/roles.js:126-132 | the definition of the `forEach` that sets each mandatory role to 1; `AddMandatoryRoles` computes it and `MandatoryStart` states its result |
| Planner.MandatoryStart | js/roles.js:123-132 | after the baseline werewolves and the mandatory roles the map is WEREWOLF, SEER, WITCH, HUNTER in that order, the last three at 1 |
| Planner.MandatoryDist | js/roles.js:116-132 | the definition of the map once the baseline werewolves and the mandatory roles are set; `PlanForUnfold` and `MandatoryStart` state what it is |
| Planner.AfterMandatory | js/roles.js:135-136 | the definition of `remainingSlots` after the mandatory roles; `SlotsLeft` proves it leaves room for every eligible optional role and one more slot |
| Planner.SlotsLeft | js/roles.js:135-153 | for 8 to 20 players the slots after the mandatory roles exceed the eligible optional roles, and at least one slot is left after the tiers |
| Planner.Grant | js/roles.js:141-146 | the definition of the inner `forEach` of `addRolesIfPossible`; `GrantAppends` states its result |
| Planner.OfferTier | js/roles.js:139-148 | the definition of one `addRolesIfPossible` call; `AddRolesIfPossible` computes it and `TierStep` states its result |
| Planner.Tiers | js/roles.js:151-153 | the definition of the three calls in threshold order; `AddOptionalRoles` computes it and `TiersResult` states its result |
| Planner.Checked | js/roles.js:187-191 | the definition of the final total check; `PlanShape` proves the mismatch error never occurs for a valid head-count |
| Planner.FillRemainingSlots | js/roles.js:156-185 | extra werewolves first, then the round-robin, exactly as the specification `Fill` |
| Planner.DistributeRemaining | js/roles.js:170-183 | the `while` loop with its wrapping index computes `RoundRobin` |
| Planner.RoundRobin | js/roles.js:170-183 | the definition of the `while` loop with its wrapping index; `RoundRobinDrains`, `RoundRobinCounts` and `HitsClosedForm` state its result |
| Planner.Fill | js/roles.js:155-185 | the definition of the extra werewolves followed by the round-robin; `FillAfterTiers` and `PlanIsTopUp` state what it does to every plan |
| Planner.FillAfterTiers | js/roles.js:155-185 | for a valid head-count, filling after the tiers is the round-robin over the map after the extra werewolves, with `TopUp(n)` slots |
| Planner.PlanIsTopUp | js/roles.js:107-194 | every plan for 8 to 20 players is the round-robin top-up of the map after the extra werewolves |
| Planner.PlanOutcome | js/roles.js:107-194 | a non-integer count or one outside [8, 20] is an error with no map; otherwise the plan succeeds, is well formed and sums to the count |
| Planner.Plan | js/roles.js:107-194 | the specification of `calculateRoleDistribution(count)`: a plan is produced only for an integer count, and its quantities sum to that count |
| Planner.PlanFor | js/roles.js:116-193 | the specification of the steps after validation: a plan is produced only for 8 to 20 players, and its quantities sum to the head-count |
| Planner.BaselineWerewolves | js/roles.js:119-122 | the baseline werewolf count always lies between 2 and 4 |
| Planner.BaselineTiers | js/roles.js:119-123 | the baseline werewolf count is 2 for 8–11 players, 3 for 12–15 and 4 for 16–20 |
| Planner.GrantAppends | js/roles.js:139-148 | granting new distinct catalog roles appends `min(slots, roles)` of them, in listed order, with quantity 1 |
| Planner.TierStep | js/roles.js:139-148 | a tier whose roles fit appends all its roles when its threshold is met and changes nothing otherwise |
| Planner.EligibleTiers | js/roles.js:151-153 | the optional roles granted are tier A from 10 players, tier B from 12 and tier C from 14, in that order |
| Planner.TiersResult | js/roles.js:150-153 | for every valid head-count, every eligible optional role fits, and the tiers leave `AfterTiers(n)` slots |
| Planner.AfterTiersShape | js/roles.js:135-153 | after the tiers the map is well formed, and quantities plus remaining slots equal `n` |
| Planner.ExtraBounds | js/roles.js:156-167 | the extra werewolves number `min(floor(r/4), floor(n/6))` and never exceed the `r` free slots |
| Planner.AddExtraWerewolves | js/roles.js:156-167 | the definition of the extra-werewolf step on a draft: `min(floor(r/4), floor(n/6))` more werewolves when positive; `ExtraMoves`, `ExtraBounds` and `ExtraStep` state its effect |
| Planner.ExtraMoves | js/roles.js:156-167 | the extra werewolves only move free slots into the WEREWOLF quantity: the free slots never grow, and both the werewolves plus free slots and the sum of quantities plus free slots are kept |
| Planner.ExtraShape | js/roles.js:156-167 | after the extra werewolves the map is still well formed, and quantities plus remaining slots still equal `n` |
| Planner.RoundRobinDrains | js/roles.js:170-183 | the round-robin uses up every remaining slot and keeps the map well formed with the sum unchanged |
| Planner.RoundRobinCounts | js/roles.js:174-183 | each round-robin slot goes to the cycle role the index points at |
| Planner.HitsClosedForm | js/roles.js:174-183 | of `r` slots dealt from index `s`, the `i`-th cycle role receives `ceil((r - distance(s, i)) / 5)` |
| Planner.PlanShape | js/roles.js:135-191 | for every valid head-count the plan is well formed and sums to `n`, so the mismatch error is unreachable |
| Planner.PlanCount | js/roles.js:107-194 | every quantity of the plan equals the closed form `ExpectedCount` |
| Planner.MandatoryPresent | js/roles.js:126-132 | SEER, WITCH and HUNTER always have quantity at least 1 |
| Planner.SecondTierCount | js/roles.js:152 | BEAR, ELDER and RAVEN have quantity exactly 1 from 12 players on and are absent below |
| Planner.ThirdTierCount | js/roles.js:153 | BARBIE and SHEPHERD have quantity exactly 1 from 14 players on and are absent below |
| Planner.LateTierExpected | js/roles.js:139-183 | the closed form never tops up a role of tier B or C |
| Planner.WerewolfBounds | js/roles.js:156-167 | the final werewolf count is the baseline plus the extras, at least 2 and at most baseline plus `floor(n/6)` |
| Planner.WerewolfCounts | js/roles.js:119-167 | the final werewolf count for 8, 9, …, 20 players is 2, 3, 2, 3, 3, 3, 3, 3, 4, 4, 5, 5, 5 |
| Planner.WerewolfNotCapped | js/roles.js:156-167 | 18 to 20 players get 5 werewolves, more than the baseline cap of 4 |
| Planner.WerewolfNotMonotone | js/roles.js:119-167 | the plans for 9 and 10 players exist, and 9 players get 3 werewolves while 10 players get 2 |
| Planner.WerewolfMinority | js/roles.js:119-167 | in every plan the WEREWOLF quantity is fewer than two fifths of the players |
| Planner.PlanForEight | js/roles.js:107-194 | 8 players give {WEREWOLF: 2, SEER: 2, WITCH: 2, HUNTER: 2} |
| Balance.Lookup | js/roles.js:208 | `ROLES[key]` yields an own catalog entry exactly for catalog keys |
| Balance.Rejects | js/roles.js:208-211 | the definition of the key the `forEach` throws at: one `ROLES` lacks as written, or any key outside the catalog in the strict reading; `FirstRejectedMember` and `MissingKeyRejected` use it |
| Balance.FirstRejected | js/roles.js:207-211 | the definition of the first entry, in entry order, at which the pass throws; `FirstRejectedMember`, `MissingKeyRejected` and `NoneRejected` state its properties |
| Balance.NoneRejected | js/roles.js:207-211 | when no key of the map is rejected, the pass never throws |
| Balance.IsVillager | js/roles.js:213-215 | the definition of the keys whose count lands in `teamCounts.get('villagers')`: own catalog entries of the villagers' team; `CatalogTeams` states which keys they are |
| Balance.IsSpecial | js/roles.js:203-220 | the definition of `specialRolesCount.has(key)`; `CatalogTeams` states which keys they are |
| Balance.CatalogTeams | js/roles.js:203-220 | a catalog key counts as special exactly when it is not WEREWOLF, and toward the villagers exactly when it is neither WEREWOLF nor BEAR |
| Balance.VillagerSum | js/roles.js:213-224 | the definition of `villagerCount` over the entries in order; `IsBalanced` accumulates it and `CatalogCounts` gives its value on planner maps |
| Balance.SpecialSum | js/roles.js:217-220 | the definition of `specialCount` over the entries in order; `IsBalanced` accumulates it and `CatalogCounts` gives its value on planner maps |
| Balance.MetricsOf | js/roles.js:237-244 | the definition of the reported counts: `totalPlayers`, `werewolfCount`, `villagerCount` and `specialCount`; the two ratio fields are left out; `JudgeWith` attaches it to every verdict |
| Balance.MinRatio | js/roles.js:229 | the definition of `minRatio`: 1.5 up to 11 players, else 2; `CrossMultiplication` uses it |
| Balance.VillagerRatioOk | js/roles.js:224-234 | the definition of the villager test under JavaScript division; `CrossMultiplication` proves it equals the integer test |
| Balance.SpecialRatioOk | js/roles.js:226-236 | the definition of the special-ratio test, failing on `NaN`; `CrossMultiplication` proves it equals `t > 0 && t <= 5s <= 3t` |
| Balance.IsBalanced | js/roles.js:196-249 | the single-pass method with integer comparisons returns exactly the specification `Judge(d)` |
| Balance.JudgeWith | js/roles.js:196-249 | a reported unknown key is a key of the map that the lookup rejects; a verdict carries the counts of the map, and `isBalanced: true` needs at least one player |
| Balance.Judge | js/roles.js:196-249 | the as-written verdict reports as unknown only a key of the map that `ROLES[key]` misses |
| Balance.JudgeOwn | js/roles.js:196-249 | the corrected verdict reports as unknown only a key of the map that is not a catalog key |
| Balance.CrossMultiplication | js/roles.js:223-236 | the ratio tests on exact rationals, with JavaScript's `Infinity` and `NaN`, agree with `2v >= 3w` or `v >= 2w` and `t <= 5s <= 3t` |
| Balance.MissingKeyRejected | js/roles.js:207-211 | a key `ROLES` lacks makes the verdict `isBalanced: false`, reporting the first such key in entry order; nothing propagates |
| Balance.FirstRejectedMember | js/roles.js:207-211 | the reported unknown key is a rejected key of the map |
| Balance.CatalogCounts | js/roles.js:213-221 | on a planner-shaped map, `specialCount` is the total minus the werewolves, and the villagers are the total minus BEAR and the werewolves |
| Balance.FewWerewolvesUnbalanced | js/roles.js:223-236 | a planner-shaped map with werewolves under two fifths of the total is judged unbalanced: its special ratio exceeds 0.6 |
| Balance.PlanNeverBalanced | js/roles.js:196-249 | every distribution the planner produces is judged unbalanced |
| Balance.InheritedKeyPasses | js/roles.js:208-211 | as written, a map with the key `constructor` is judged balanced instead of rejected as unknown |
| Balance.JudgeOwnRejectsForeign | js/roles.js:208-211 | with the corrected lookup, every key outside the catalog makes the verdict false |
| Balance.JudgeOwnAgrees | js/roles.js:207-221 | the corrected and the as-written check agree on every map whose keys are catalog keys |
| Assignment.Expand | js/game.js:224-229 | the pool has as many entries as the distribution's sum |
| Assignment.Repeat | js/game.js:226-228 | the definition of the inner `for` that pushes a key `count` times; `RepeatCount` states how often each key occurs |
| Assignment.RepeatCount | js/game.js:226-228 | the inner loop adds `count` copies of its own key and none of any other |
| Assignment.ExpandPool | js/game.js:224-229 | the nested `push` loops build exactly `Expand(d)` |
| Assignment.ExpandCount | js/game.js:224-229 | each key occurs in the pool exactly its quantity times |
| Assignment.RemoveFirst | js/game.js:237-240 | `indexOf` plus `splice` removes exactly one occurrence of the role when present and leaves the pool unchanged otherwise |
| Assignment.RemoveLocked | js/game.js:235-241 | the pool left after the locks is never longer than the pool; `RemoveLockedMultiset` and `RemoveLockedLength` state exactly what it loses |
| Assignment.TakeOut | js/game.js:237-240 | the `indexOf` and `splice` code computes `RemoveFirst` |
| Assignment.HandleLocked | js/game.js:235-241 | the `forEach` over the locks pins each locked player and removes one matching role per lock |
| Assignment.PinLocked | js/game.js:235-236 | the definition of the assignment map after the locks: each lock in turn is `set` on it; `PinLockedFresh` and `LockedHonoured` state its contents |
| Assignment.RemoveLockedMultiset | js/game.js:235-241 | the pool loses exactly the locked roles it holds, as a multiset |
| Assignment.RemoveLockedLength | js/game.js:235-241 | when every locked role is found, the pool shrinks by one entry per lock |
| Assignment.PinLockedFresh | js/game.js:232-236 | pinning distinct locks on a cleared map gives back the lock map |
| Assignment.Draw | js/game.js:248 | `floor(random * (i + 1))` lies in [0, i] |
| Assignment.Shuffle | js/game.js:247-250 | the in-place descending swap loop leaves the array equal to `FisherYates` of its old contents |
| Assignment.Swap | js/game.js:249 | the destructuring swap keeps the length; `SwapPermutes` proves it keeps the multiset |
| Assignment.ShuffleFrom | js/game.js:247-250 | the swaps from index `i` down to 1 keep the length; `ShuffleFromPermutes` proves them a permutation |
| Assignment.ShuffleFromPermutes | js/game.js:247-250 | the swaps from any index down to 1 keep the multiset of roles |
| Assignment.FisherYates | js/game.js:247-250 | the shuffle keeps the length of the pool; `FisherYatesPermutes` proves it a permutation |
| Assignment.SwapPermutes | js/game.js:249 | a swap keeps the length and the multiset of roles |
| Assignment.FisherYatesPermutes | js/game.js:247-250 | the shuffle is a permutation of its input |
| Assignment.UnlockedPlayers | js/game.js:244-245 | the filter over `players.keys()` computes `Unlocked` |
| Assignment.Unlocked | js/game.js:244-245 | the definition of the unlocked players, in insertion order; `UnlockedMembers` and `UnlockedCount` state which ids they are and how many |
| Assignment.UnlockedMembers | js/game.js:244-245 | the unlocked ids are exactly the players without a lock, each once |
| Assignment.UnlockedCount | js/game.js:244-245 | with every lock on a present player, `players.size - lockedRoles.size` players are unlocked |
| Assignment.DealRoles | js/game.js:252-256 | the `forEach` over the unlocked players computes `Deal` |
| Assignment.Deal | js/game.js:252-256 | the definition of the deal: the `k`-th id is `set` to `pool[k]` while the pool lasts; `DealGet` and `DealDistinct` state its result |
| Assignment.Zip | js/game.js:252-256 | pairing ids with roles position by position: the keys of the result are the ids and its values are the roles, in order |
| Assignment.DealAppends | js/game.js:252-256 | dealing to new distinct ids with enough roles appends the ids paired with the pool in order |
| Assignment.DealGet | js/game.js:252-256 | the `k`-th dealt id reads `pool[k]` when `k < pool.length`; every other id keeps its entry |
| Assignment.DealDistinct | js/game.js:252-256 | dealing never creates a second entry for an id |
| Assignment.LockedHonoured | js/game.js:235-256 | every locked player ends up with exactly its locked role |
| Assignment.UnlockedDealt | js/game.js:244-256 | the `k`-th unlocked player gets `shuffled[k]` when `k < shuffled.length`, and no entry otherwise |
| Assignment.AssignedRoles | js/game.js:232-256 | the definition of the whole assignment: the locks pinned on a cleared map, then the deal of the shuffled pool to the unlocked players; `LockedHonoured`, `UnlockedDealt`, `AssignmentOfPool` and `AssignmentCoversAll` state its properties |
| Assignment.AssignmentOfPool | js/game.js:232-256 | with one role per unlocked player, every player gets a role: the locked ones, then the shuffled pool |
| Assignment.AssignmentCoversAll | js/game.js:224-256 | when every locked role is in the pool, every player gets a role and the multiset of roles is the distribution's |
| Names.TrimCuts | js/game.js:121 | `trim` keeps a middle part with whitespace cut from both ends and none left at either end |
| Names.TrimEmpty | js/game.js:121-127 | a name is empty after `trim` exactly when it is all whitespace |
| Names.TrimIdempotent | js/game.js:121 | trimming twice changes nothing more |
| Names.Utf16Length | js/game.js:129-131 | the UTF-16 length is between one and two units per character |
| Names.Leading | js/game.js:121 | the whitespace that opens a name: every cut character is whitespace and the first kept one is not |
| Names.Trailing | js/game.js:121 | the whitespace that closes a name: every cut character is whitespace and the last kept one is not |
| Names.IsSpace | js/game.js:121 | only the space and characters outside printable ASCII count as whitespace for `trim` |
| Names.Trim | js/game.js:121 | `trim` never lengthens a name, and a non-empty result neither starts nor ends with whitespace |
| Names.Lower | js/game.js:134-136 | the definition of `toLowerCase`, on ASCII letters only; `LowerChars`, `LowerIdempotent` and `SameNameCase` state its properties |
| Names.LowerChars | js/game.js:134-136 | lower-casing leaves no ASCII capital and keeps every character that is not one |
| Names.LowerIdempotent | js/game.js:134-136 | lower-casing a lower-cased name changes nothing |
| Names.SameNameEquivalence | js/game.js:134-136 | the case-insensitive clash is reflexive, symmetric and transitive, so the pairwise check behind distinct names is consistent |
| Names.LowerChar | js/game.js:135 | the definition of `toLowerCase` on one character, ASCII letters only; `Lower` and `SameNameCase` state its use |
| Names.SameName | js/game.js:134-136 | the definition of `name.toLowerCase() === playerName.toLowerCase()`; `SameNameCase` states it letter by letter |
| Names.SameNameCase | js/game.js:134-136 | two names clash exactly when they have the same length and agree letter by letter up to case |
| Names.IsDuplicate | js/game.js:134-136 | the `some` test finds every name already present, and finds nothing among no names |
| Game.DistributionFor | js/game.js:212 | the distribution for a valid head-count is well formed and sums to the head-count |
| Game.WerewolfGame.Valid | js/game.js:160-197 | the definition of the invariant: no map repeats a key, at most 20 players, and every lock is on a present player; the constructor and every method keep it |
| Game.DistinctNames | js/game.js:133-147 | the definition of names distinct up to case; `SubmitPlayer` keeps it and `NewNameKeepsDistinct` proves why |
| Game.WerewolfGame.constructor | js/game.js:1-13 | a new game has no players, locks or assignment, and is not assigning |
| Game.WerewolfGame.AddPlayer | js/game.js:160-180 | an empty name or a full table changes nothing; otherwise the new id maps to the name, appended when the id is new; at most 20 players |
| Game.WerewolfGame.RemovePlayer | js/game.js:182-187 | the player and its lock are deleted; the last assignment is kept |
| Game.WerewolfGame.LockRole | js/game.js:189-193 | a lock is recorded only for a present player, so locks stay on present players |
| Game.WerewolfGame.UnlockRole | js/game.js:195-197 | the player's lock is gone and nothing else changes |
| Game.WerewolfGame.ResetGame | js/game.js:299-307 | when confirmed, all three maps are cleared; otherwise nothing changes |
| Game.WerewolfGame.SubmitPlayer | js/game.js:114-158 | the trimmed name is refused when empty, longer than 30 UTF-16 units, a case-insensitive duplicate, or the table is full, in that order; otherwise it is added; names stay distinct up to case |
| Game.NewNameKeepsDistinct | js/game.js:133-147 | a name that clashes with no present name keeps all names distinct up to case, whether its id is new or replaces an entry |
| Game.WerewolfGame.AssignRoles | js/game.js:199-266 | a call while assigning changes nothing; below 8 players the old assignment stays; the cancel happens exactly when the prompt is declined; otherwise the new assignment is the locks plus the deal of the shuffled pool; the flag is false after every other exit |
| Game.DealAll | js/game.js:223-256 | the pool, lock, shuffle and deal code computes `AssignedRoles` of the shuffled pool |
| Game.DealtRoster | js/game.js:224-256 | the dealt roster keeps one entry per id, and covers every player with the distribution's roles when the locks fit the pool |
| OrderedMaps.GetSet | js/game.js:173 | after `set(k, v)`, `get(k)` is `v` and every other key reads as before |
| OrderedMaps.GetDelete | js/game.js:183-184 | after `delete(k)`, `get(k)` is undefined and every other key reads as before |
| OrderedMaps.SetDistinct | js/game.js:173 | `set` never creates a second entry for a key |
| OrderedMaps.IndexOf | js/game.js:237 | `indexOf` returns -1 exactly when the value is absent, and otherwise the first position that holds it |
| OrderedMaps.Get | js/roles.js:158 | `get(k)` yields a value exactly when `k` is a key, and that value is the one stored under `k` |
| OrderedMaps.Set | js/game.js:173 | the definition of `set`: replace the entry in place when the key is present, else append; `SetKeys`, `SetAbsent`, `SetPresent`, `GetSet` and `SetDistinct` state its behaviour |
| OrderedMaps.SetKeys | js/game.js:173 | `set` adds its key to the key set and grows the map by one entry exactly when the key is new |
| OrderedMaps.SetAbsent | js/game.js:173 | `set` with a new key appends its entry at the end |
| OrderedMaps.SetPresent | js/game.js:173 | `set` with a present key keeps the size and the key order, and stores the new value |
| OrderedMaps.Delete | js/game.js:183-184 | `delete(k)` of a missing key changes nothing; of a present key it removes one entry, and the keys left are the old ones without `k` |
| OrderedMaps.KeySeq | js/game.js:244 | the definition of `Array.from(m.keys())`: the keys in entry order; `Append` and `SetPresent` state how it changes |
| OrderedMaps.Values | js/game.js:134 | the definition of `Array.from(m.values())`: the values in entry order; `Append` states how it changes |
| OrderedMaps.Append | js/game.js:232-256 | the keys and values of two maps joined are those of the first map followed by those of the second |

## Left out

- The DOM and UI are not modelled: `init`, the event listeners, `renderPlayers`, `updatePlayerCount`, `closeModal`, `showRoleAssignments` and the bootstrap code. They only present the state.
- Timers and logging are not modelled: `debounce`, `safeExecute`, `handleError`, `console` and the `lastAssignment` date. None of them affects the state above.
- `confirm()` answers are boolean parameters (`proceed` of `AssignRoles`, `confirmed` of `ResetGame`). `alert()` messages become outcome values.
- `Math.random()` results are parameters:
  - the shuffle reads a sequence of draws in [0, 1);
  - the id built from `Date.now()` and `Math.random()` is a parameter `freshId`. When it collides with an existing id, `AddPlayer` overwrites that entry, as `Map.set` would.
- Game.WerewolfGame.AssignRoles: makes no claim that the shuffle is uniform. It requires at least one draw per player.
- Game.WerewolfGame.AssignRoles: the error branch for a failed plan is not modelled. A valid game has 8 to 20 players, and for those `Planner.PlanOutcome` proves that the plan succeeds.
- The `typeof` checks on non-number and non-string arguments are left out. The model's types exclude those inputs.
- `NaN`, `Infinity` and `-Infinity` are not modelled as head-counts, because `count` is an exact real. The source rejects all three as non-integers, with the same error as any other non-integer.
- Names hold Unicode scalar values, so a name with a lone UTF-16 surrogate cannot be written. `Names.Utf16Length`, `Names.Trim` and the checks of `SubmitPlayer` say nothing about such names.
- Balance.IsBalanced: the ratios are exact rationals, not IEEE doubles. For head-counts this small, the double comparisons give the same answers.
- The mandatory-role check at js/roles.js:128-130 cannot fail, since SEER, WITCH and HUNTER are catalog keys. It is left out.
- The `werewolves` entry of `teamCounts` is never read by the verdict, so it is not modelled.
- Balance.MetricsOf: the `villagerToWerewolfRatio` and `specialRoleRatio` fields of `metrics` are not modelled. They follow from the four counts, and the game only logs them.
- Names.Lower: maps only ASCII letters. The full Unicode `toLowerCase` is not modelled, so names that differ only in non-ASCII case count as distinct here.
- The `name`, `description`, `minPlayers` and `scaling` fields of `ROLES` are left out. The logic never reads them.

## Findings

| source | as written | input that shows it | evidently intended | confidence | as-written member | corrected member |
|---|---|---|---|---|---|---|
| js/roles.js:208-211 | `ROLES[roleKey]` also finds the names inherited from `Object.prototype`, so those keys pass the unknown-role check | {WEREWOLF: 2, SEER: 1, WITCH: 1, HUNTER: 1, constructor: 1} is judged balanced with total 6, not rejected as unknown | only the catalog's own keys pass (`Object.hasOwn(ROLES, roleKey)`), so any other key gives `isBalanced: false` | not executed | Balance.InheritedKeyPasses | Balance.JudgeOwnRejectsForeign |

The planner only ever produces catalog keys. By `Balance.JudgeOwnAgrees`, both
readings give the same verdict on everything the game itself passes to `isBalanced`.
