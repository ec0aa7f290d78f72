# Turn bookkeeping, enemy alerts and campfire supports

A Dafny model of three components of a small Unity tactics game (YuriGameJam2023).

- **CharacterManager** runs the battle:
  - the roster of player and enemy characters;
  - the two-phase turn machine with its action counter;
  - the start of the game and the game-over freeze;
  - the affinity ("love") scores between pairs of characters;
  - the support key unlocked when the enemies are cleared;
  - the two confirmation popups of the cancel button.
- **EnemyController** is the enemy AI:
  - the alert flag and its one-hop propagation to nearby enemies;
  - arming an enemy turn against a target;
  - resolving that turn in FixedUpdate (keep moving, face the target, attack or stand down);
  - sensing a player while idle;
  - the alert on a non-lethal hit.
- **CampfireManager** is the scene after the battle:
  - hovering and clicking characters selects a pair;
  - the interaction hints show which partner has a playable support;
  - clicking a playable pair hides everyone else and shows the couple's story;
  - when the story ends, the support is recorded as played and saved.

Each component has a pure half and a class:
- The pure half is a value (`Turns.Turn`, `Campfire.Camp`) with one transition function per operation (`EndTurnOf`, `ClickOf`, …). The lemmas about the source's behaviour are proved about these functions.
- The class (`Turns.CharacterManager`, `Enemy.EnemyController`, `Campfire.CampfireManager`) keeps the same data in mutable fields, with one method per source operation. The methods of `CharacterManager` that change the turn state and those of `CampfireManager` are proved to perform exactly the matching transition (`State() == EndTurnOf(old(State()))`). The remaining methods state their new fields directly in their contracts: `IncreaseLove`, `StartTurn`, `UnsetPlayer` and `UnlockSupport` of `CharacterManager`, and `Alert`, `Target` and `TakeDamage` of `EnemyController`. The source's loops are `while` loops with their invariants.

Modules:
- `Optional`: the Option type.
- `Names`:
  - `string.CompareTo(...) < 0` as an ordinal lexicographic order, proved a strict total order;
  - the support key built from two names (the same expression in CharacterManager.cs and CampfireManager.cs).
- `Roster`: the team filter (`x is PlayerController`), `List.Remove` and `GetClosestCharacter`.
- `Affinity`: the love dictionary, kept as an insertion-ordered association list, and the choice of the pair to unlock.
- `Turns`: CharacterManager.
- `Enemy`: EnemyController.
- `Campfire`: CampfireManager.

Calls into code outside the model are recorded in a `calls` log in the order they are made:
- `Character.EndTurn`, `Enable`, `Attack`, `Disable`;
- `EnemyManager.StartTurn` and `DoAction`;
- `SaveData.UnlockSupport` and `PlaySupport`, `PersistencyManager.Save`;
- `VNManager.ShowStory` and `DisplayNextDialogue`;
- the start of the campfire-scene coroutine.

Flags that the source sets on character objects are sets of characters held by the manager: `CanBePlayed`, the campfire lights, the interaction hints and `SetActive(false)`. The `CanBePlayed` set holds only the writes this manager makes (`CanBePlayed = true` in `EndTurn`), so it never loses a member. The character class clears the flag itself, and that code is not part of this model.

World state that the engine computes becomes inputs:
- distances, which are floats in the source, become integers: `dist` functions, `distance` and `targetDistance` parameters;
- the navigation agent's report, `HaveAnyNonFriendlyTarget` and the overlap-sphere result are the fields of `Enemy.Sensing`;
- the raycast under the mouse is `hit`;
- `VNManager.IsPlayingStory` is `isPlayingStory`;
- the save data's `GetCurrentSupportLevel` and `CanPlaySupport` are `level` and `canPlay`.

Where this behaviour differs from the game's design description, the model follows the code:
- The action counter is not kept non-negative. After the game-over freeze, `RemoveAction` keeps decrementing it and no turn change follows (`Turns.GameOverFreezesTurn`). A phase whose incoming team is empty starts with zero actions.
- `EndTurn` is refused only during the player turn with the game-over screen shown. Clearing the enemy side blocks nothing; it only unlocks the support and schedules the campfire scene.
- Alert propagation is exactly one hop. Friends are alerted with `Alert(false)` and pass nothing on (`Enemy.AlertOneHop`).
- Every non-lethal hit calls `Alert(true)`, including on an enemy that is already alerted.
- `IncreaseLove` accepts any integer amount, so a score can also go down.
- The love lookup also matches a self-pair: asked for (a, b), an entry (a, a) or (b, b) is found. The amount then goes to that entry, no (a, b) entry is created, and `UnlockSupport` may save a key made of one name twice (`Affinity.IncreaseLoveSelfPairAbsorbs`). Nothing in the code stops a caller from passing the same character twice.
- `EndTurn` ends each outgoing character's turn from the last registered member to the first.
- The end of an encounter is not remembered. Every later `UnregisterCharacter` that leaves a player and no enemy unlocks the support, saves and starts the campfire coroutine again (`Turns.EnemyClearedRepeats`). This happens, for example, when a player falls during the two-second delay, or when the same enemy is unregistered twice.

## Model

| member | source | states |
|---|---|---|
| Names.Less | Assets/Scripts/CharacterManager.cs:173 | `CompareTo(...) < 0` as the ordinal lexicographic order; its order properties are the four lemmas below |
| Names.SupportKey | Assets/Scripts/Campfire/CampfireManager.cs:183-190 | the key of two names; characterised by SupportKeyOrdered, SupportKeySymmetric and SupportKeySmallerFirst |
| Names.LessIrreflexive | Assets/Scripts/CharacterManager.cs:173 | no name sorts before itself under the ordinal order standing for `CompareTo(...) < 0` |
| Names.LessAsymmetric | Assets/Scripts/CharacterManager.cs:173 | two names are never each before the other |
| Names.LessTransitive | Assets/Scripts/CharacterManager.cs:173 | the name order is transitive |
| Names.LessConnected | Assets/Scripts/CharacterManager.cs:173 | two different names are always ordered one way or the other |
| Names.SupportKeyOrdered | Assets/Scripts/Campfire/CampfireManager.cs:183-190 | the support key is the two names concatenated, the first one not sorting after the second |
| Names.SupportKeySymmetric | Assets/Scripts/Campfire/CampfireManager.cs:183-190 | the key does not depend on the order of the two names |
| Names.SupportKeySmallerFirst | Assets/Scripts/CharacterManager.cs:170-173 | with two different names the smaller comes first, in either argument order |
| Roster.Other | Assets/Scripts/CharacterManager.cs:237-239 | the other team is never the same team |
| Roster.OfTeam | Assets/Scripts/CharacterManager.cs:306-311 | the `Where(x is T)` filter is never longer than the roster |
| Roster.OfTeamMembers | Assets/Scripts/CharacterManager.cs:306-311 | the filter keeps exactly the characters of that team, and is empty exactly when nobody is on it |
| Roster.OfTeamAppend | Assets/Scripts/CharacterManager.cs:131-133 | filtering the roster after `Add(c)` gives the old filter, followed by `c` exactly when `c` is on that team |
| Roster.RemoveFirst | Assets/Scripts/CharacterManager.cs:141 | `List.Remove` takes exactly one occurrence away when there is one (as a multiset), and changes nothing otherwise |
| Roster.FirstIndex | Assets/Scripts/CharacterManager.cs:141 | the position of `c` with no occurrence of `c` before it |
| Roster.RemoveFirstKeepsOrder | Assets/Scripts/CharacterManager.cs:141 | `List.Remove` drops the first occurrence and the others keep their roster order |
| Roster.SpliceCons | Assets/Scripts/CharacterManager.cs:141 | cutting one position out of a roster commutes with putting a character in front, the step RemoveFirstKeepsOrder needs |
| Roster.OfTeamRemoveFirst | Assets/Scripts/CharacterManager.cs:141-147 | removing a character never gives an empty team a member, so a cleared side stays cleared |
| Roster.ClosestIndex | Assets/Scripts/CharacterManager.cs:297-304 | None exactly when the team is empty; otherwise a team member of least distance, earlier than every other member at that distance (stable OrderBy) |
| Roster.GetClosestCharacter | Assets/Scripts/CharacterManager.cs:297-304 | None exactly when the team is empty (where `ElementAt(0)` throws); otherwise a member of the team at least distance |
| Affinity.FindCouple | Assets/Scripts/CharacterManager.cs:324-326 | None exactly when no entry matches; otherwise the first matching entry |
| Affinity.Score | Assets/Scripts/CharacterManager.cs:324-334 | the value IncreaseLove would add to; related to IncreaseLove by IncreaseLoveScore and ScoreSymmetric |
| Affinity.Matches | Assets/Scripts/CharacterManager.cs:325-326 | the lookup lambda: both items of the key are `a` or `b`, which also accepts a self-pair (a, a) or (b, b); used by FindCouple and IncreaseLoveSelfPairAbsorbs |
| Affinity.IncreaseLove | Assets/Scripts/CharacterManager.cs:322-335 | when no entry matches the lookup (which also matches a self-pair (a, a) or (b, b)) the entry (a, b) is appended with the amount; otherwise the first matching entry gains the amount and every other entry is unchanged |
| Affinity.FindCoupleSymmetric | Assets/Scripts/CharacterManager.cs:324-326 | the lookup for (a, b) and for (b, a) finds the same entry |
| Affinity.ScoreSymmetric | Assets/Scripts/CharacterManager.cs:324-326 | a pair has one score whichever order it is asked in |
| Affinity.IncreaseLoveScore | Assets/Scripts/CharacterManager.cs:322-335 | after IncreaseLove the score the lookup finds (which may be a self-pair entry) is the amount if no entry matched, else the old score plus the amount |
| Affinity.IncreaseLoveSelfPairAbsorbs | Assets/Scripts/CharacterManager.cs:322-335 | with a != b, increasing (a, b) on a dictionary holding only (a, a) adds to that entry, creates no (a, b) entry, and the key unlocked is `a`'s name twice |
| Affinity.IncreaseLoveOrderIndependent | Assets/Scripts/CharacterManager.cs:322-335 | (a, b, 5) then (b, a, 3) on a missing pair leaves one new entry worth 8, found in either order |
| Affinity.IncreaseLoveKeepsUniquePairs | Assets/Scripts/CharacterManager.cs:322-335 | IncreaseLove never gives an unordered pair a second entry |
| Affinity.StrongestIndex | Assets/Scripts/CharacterManager.cs:162 | `OrderByDescending(Value).FirstOrDefault()` picks an entry with the largest score and no earlier entry reaches it |
| Affinity.UnlockKey | Assets/Scripts/CharacterManager.cs:162-168 | no key exactly when the dictionary is empty |
| Affinity.UnlockKeyStrictMaximum | Assets/Scripts/CharacterManager.cs:160-176 | a pair scoring strictly above all others is the one unlocked, under the key of its names in either order |
| Affinity.UnlockKeyTieFirstInserted | Assets/Scripts/CharacterManager.cs:162 | among pairs tied at the top score the first inserted wins |
| Turns.ActiveTeam | Assets/Scripts/CharacterManager.cs:227 | the active team is the player team exactly in the player turn |
| Turns.EndTurnCalls | Assets/Scripts/CharacterManager.cs:228-231 | one Character.EndTurn per outgoing character, last character first |
| Turns.Frozen | Assets/Scripts/CharacterManager.cs:222 | EndTurn's guard: the player turn with the game-over screen shown; used by EndTurnEffect and GameOverFreezesTurn |
| Turns.EndTurnOf | Assets/Scripts/CharacterManager.cs:220-250 | the EndTurn transition; its effect is stated by EndTurnEffect and EndTurnCallOrder |
| Turns.EndTurnEffect | Assets/Scripts/CharacterManager.cs:220-250 | frozen: nothing changes; otherwise the phase flips, the counter is the incoming team's size, the outgoing team becomes playable, nothing else but the calls changes |
| Turns.EndTurnCallOrder | Assets/Scripts/CharacterManager.cs:227-249 | the calls are the earlier ones, then EndTurn on each outgoing character from the last, then EnemyManager.StartTurn when the enemies come in |
| Turns.GameOverOf | Assets/Scripts/CharacterManager.cs:113-121 | after GameOver it is the player turn and the screen shows the reason; roster, scores and start flag kept; in the player turn only the screen changes |
| Turns.RegisterOf | Assets/Scripts/CharacterManager.cs:128-138 | the character is appended; the game is started once the player count is reached and otherwise nothing else changes |
| Turns.RemoveActionOf | Assets/Scripts/CharacterManager.cs:202-218 | one action fewer; at zero the turn ends; otherwise in the enemy turn EnemyManager.DoAction is requested |
| Turns.UnlockCalls | Assets/Scripts/CharacterManager.cs:160-176 | nothing for an empty dictionary, otherwise the unlock of the chosen key then a save |
| Turns.UnregisterOf | Assets/Scripts/CharacterManager.cs:139-152 | the UnregisterCharacter transition; stated by UnregisterRemoves, UnregisterMidBattle, PlayerWipeTakesPrecedence, EnemyClearedUnlocks and EnemyClearedRepeats |
| Turns.OperationsKeepConsistent | Assets/Scripts/CharacterManager.cs:113-250 | every operation keeps the game-over screen inside the player turn |
| Turns.GameStartsOnce | Assets/Scripts/CharacterManager.cs:128-138 | completing the player team starts the game in the player turn with one action per player, and later registrations only append |
| Turns.RemoveActionsBeforeZero | Assets/Scripts/CharacterManager.cs:207-217 | before the counter reaches zero each RemoveAction takes exactly one action and keeps the phase |
| Turns.LastActionEndsTurn | Assets/Scripts/CharacterManager.cs:210-213 | the action that reaches zero flips the phase and recounts for the incoming team |
| Turns.BudgetExhaustionEndsTurn | Assets/Scripts/CharacterManager.cs:202-250 | using up a whole positive budget hands the turn over with one action per incoming character |
| Turns.TwoPlayersThreeEnemies | Assets/Scripts/CharacterManager.cs:202-250 | two player actions hand three actions to the enemies and start their turn |
| Turns.GameOverFreezesTurn | Assets/Scripts/CharacterManager.cs:113-121 | after GameOver EndTurn changes nothing, RemoveAction only decrements, Unregister keeps the freeze |
| Turns.PlayerWipeTakesPrecedence | Assets/Scripts/CharacterManager.cs:139-152 | removing the last player is a game over even with no enemy left: no unlock, no campfire, only EndTurn calls added |
| Turns.UnregisterRemoves | Assets/Scripts/CharacterManager.cs:139-141 | unregistering removes exactly that character and keeps the scores |
| Turns.UnregisterMidBattle | Assets/Scripts/CharacterManager.cs:139-152 | with both teams still present only the roster changes |
| Turns.EnemyClearedCalls | Assets/Scripts/CharacterManager.cs:147-151 | removing the last enemy appends the unlock calls and the campfire scene |
| Turns.EnemyClearedKeepsTurn | Assets/Scripts/CharacterManager.cs:147-151 | removing the last enemy keeps phase, counter and game-over screen |
| Turns.EnemyClearedUnlocks | Assets/Scripts/CharacterManager.cs:147-176 | a removal leaving a player and no enemy unlocks the strongest pair's key (nothing when there is no score), saves and schedules the campfire, once in that call, and keeps the turn |
| Turns.EnemyClearedRepeats | Assets/Scripts/CharacterManager.cs:139-151 | a second removal while the enemy side stays empty and a player remains repeats the unlock, the save and the campfire scheduling |
| Turns.CancelOf | Assets/Scripts/CharacterManager.cs:363-399 | the popup transition of OnClickCancel; stated by CancelPrecedence, CancelKeepsOnePopup and CancelTogglesEndTurnPopup |
| Turns.CancelPrecedence | Assets/Scripts/CharacterManager.cs:363-399 | the cancel button's checks in order: frozen or enemy turn, open end-turn popup, open disable popup, nothing selected, selection without pending auto-disable; one popup at most changes |
| Turns.CancelKeepsOnePopup | Assets/Scripts/CharacterManager.cs:363-399 | the cancel button never leaves both popups open |
| Turns.CancelTogglesEndTurnPopup | Assets/Scripts/CharacterManager.cs:378-391 | with nothing selected the cancel button opens, then closes, the end-turn popup |
| Turns.EndEachTurn | Assets/Scripts/CharacterManager.cs:228-231 | the reverse loop appends exactly EndTurnCalls of the outgoing team |
| Turns.MakePlayable | Assets/Scripts/CharacterManager.cs:232-235 | the loop makes exactly the outgoing team playable, keeping the earlier flags |
| Turns.CharacterManager.constructor | Assets/Scripts/CharacterManager.cs:77-86 | empty roster, enemy phase, no actions, no scores, nothing selected, no popup |
| Turns.CharacterManager.EndTurn | Assets/Scripts/CharacterManager.cs:220-250 | the fields perform EndTurnOf, and the invariant holds |
| Turns.CharacterManager.GameOver | Assets/Scripts/CharacterManager.cs:113-121 | the fields perform GameOverOf |
| Turns.CharacterManager.RegisterCharacter | Assets/Scripts/CharacterManager.cs:128-138 | the fields perform RegisterOf with the configured player count |
| Turns.CharacterManager.UnregisterCharacter | Assets/Scripts/CharacterManager.cs:139-152 | the fields perform UnregisterOf |
| Turns.CharacterManager.UnlockSupport | Assets/Scripts/CharacterManager.cs:160-176 | only the calls change, by UnlockCalls of the scores |
| Turns.CharacterManager.RemoveAction | Assets/Scripts/CharacterManager.cs:202-218 | the fields perform RemoveActionOf |
| Turns.CharacterManager.IncreaseLove | Assets/Scripts/CharacterManager.cs:322-335 | the scores become Affinity.IncreaseLove of the old ones |
| Turns.CharacterManager.StartTurn | Assets/Scripts/CharacterManager.cs:271-272 | the character is selected, enabled, and AmIActive holds for exactly its instance id |
| Turns.CharacterManager.UnsetPlayer | Assets/Scripts/CharacterManager.cs:184-189 | nothing is selected and AmIActive holds for nobody |
| Turns.CharacterManager.AmIActive | Assets/Scripts/CharacterManager.cs:178-179 | the selected character has `c`'s instance id; what it holds after StartTurn and UnsetPlayer is stated by those methods |
| Turns.CharacterManager.OnClickCancel | Assets/Scripts/CharacterManager.cs:363-399 | the popups perform CancelOf and never both end up open |
| Enemy.Arrived | Assets/Scripts/Enemy/EnemyController.cs:145 | the enemy has stopped within the first skill's range or has no movement left; used by Resolve and the resolution lemmas |
| Enemy.Resolve | Assets/Scripts/Enemy/EnemyController.cs:145-171 | the four outcomes of an enemy's turn in a tick; stated by ResolutionEndsTurnOnce and FacingKeepsTurn |
| Enemy.TickOf | Assets/Scripts/Enemy/EnemyController.cs:140-187 | one FixedUpdate as calls, turn flag and alarm; stated by the four lemmas below and by FixedUpdate |
| Enemy.ResolutionEndsTurnOnce | Assets/Scripts/Enemy/EnemyController.cs:145-171 | a resolved turn ends with exactly one of Attack and Disable, Attack exactly with a hostile target |
| Enemy.FacingKeepsTurn | Assets/Scripts/Enemy/EnemyController.cs:148-160 | no hostile target but `_target` in range: the enemy only turns, keeps its turn and skips sensing |
| Enemy.SensingOnlyWhenIdle | Assets/Scripts/Enemy/EnemyController.cs:176-186 | the alarm is raised exactly when it is not the enemy's turn, it is not alerted and a player is visible |
| Enemy.TickNeverArmsTurn | Assets/Scripts/Enemy/EnemyController.cs:140-173 | a tick never starts a turn, and Attack or Disable happen only in the tick that ends one |
| Enemy.CloseFriends | Assets/Scripts/Enemy/EnemyController.cs:87-94 | exactly the enemies other than the caller strictly within range, never the caller |
| Enemy.AlarmedWithinRange | Assets/Scripts/Enemy/EnemyController.cs:100-114 | an alert reaches the caller and, only when screaming, exactly the enemies strictly within its range |
| Enemy.AlertOneHop | Assets/Scripts/Enemy/EnemyController.cs:106-113 | an enemy outside the caller's range is never reached, however close to a friend |
| Enemy.EnemyController.constructor | Assets/Scripts/Enemy/EnemyController.cs:32-42 | IsAlerted starts as `_startAwareOfPlayer`, no turn, no target |
| Enemy.EnemyController.Alert | Assets/Scripts/Enemy/EnemyController.cs:100-114 | the caller and, when screaming, its close friends become alerted; every other enemy keeps its flag, so alerting is monotonic |
| Enemy.EnemyController.Target | Assets/Scripts/Enemy/EnemyController.cs:120-133 | the turn is armed against `t`; the destination changes only beyond the first skill's range |
| Enemy.EnemyController.FixedUpdate | Assets/Scripts/Enemy/EnemyController.cs:140-187 | calls and turn flag follow TickOf, and the alarm raised alerts the same enemies as Alert(true) |
| Enemy.EnemyController.TakeDamage | Assets/Scripts/Enemy/EnemyController.cs:197-208 | a lethal hit returns true and changes no flag; any other hit alerts as Alert(true) and returns false |
| Campfire.KeyOf | Assets/Scripts/Campfire/CampfireManager.cs:183-190 | GetSupportKey: the support key of the two characters' names; stated by KeyOfSymmetric and Names.SupportKeyOrdered |
| Campfire.KeyOfSymmetric | Assets/Scripts/Campfire/CampfireManager.cs:183-190 | `GetSupportKey(a, b) == GetSupportKey(b, a)` |
| Campfire.Toggle | Assets/Scripts/Campfire/CampfireManager.cs:84-85 | ToggleInteraction sets exactly that character's hint |
| Campfire.Playable | Assets/Scripts/Campfire/CampfireManager.cs:89-92 | the couple's support can be played at its current level; used by CoupleWithTargetHintsPartner and DisplayDecidedByLastCouple |
| Campfire.ApplyCouple | Assets/Scripts/Campfire/CampfireManager.cs:81-109 | one iteration of UpdateSupportDisplay; stated by CoupleWithoutTargetClears and CoupleWithTargetHintsPartner |
| Campfire.DisplayAfter | Assets/Scripts/Campfire/CampfireManager.cs:79-110 | the whole UpdateSupportDisplay loop; stated by DisplayKeepsOutsiders, DisplayLastCoupleWins and DisplayDecidedByLastCouple |
| Campfire.CoupleWithoutTargetClears | Assets/Scripts/Campfire/CampfireManager.cs:82-87 | a couple without the target switches both hints off |
| Campfire.CoupleWithTargetHintsPartner | Assets/Scripts/Campfire/CampfireManager.cs:89-109 | with the target in the couple, the partner is hinted exactly when the support is playable, the target never, others untouched |
| Campfire.DisplayKeepsOutsiders | Assets/Scripts/Campfire/CampfireManager.cs:79-110 | a character in no couple keeps its hint |
| Campfire.DisplayLastCoupleWins | Assets/Scripts/Campfire/CampfireManager.cs:79-110 | a character's final hint is the one its last couple gives it |
| Campfire.DisplayDecidedByLastCouple | Assets/Scripts/Campfire/CampfireManager.cs:79-110 | a character's final hint is on exactly when it is the partner of the target in its last couple and that support is playable |
| Campfire.IsCoupleOf | Assets/Scripts/Campfire/CampfireManager.cs:143 | the `First` predicate: the couple is the two characters in either order; used by FindCouple and FindCoupleSymmetric |
| Campfire.FindCouple | Assets/Scripts/Campfire/CampfireManager.cs:143 | None exactly when no couple is the pair in either order (where `First` throws); otherwise the first such couple |
| Campfire.FindCoupleSymmetric | Assets/Scripts/Campfire/CampfireManager.cs:143 | the couple found does not depend on which of the two was selected first |
| Campfire.PlayOf | Assets/Scripts/Campfire/CampfireManager.cs:133-154 | the playable-pair branch of OnClick; stated by ClickPlaysStory and ClickPlayableErrors |
| Campfire.ClickOf | Assets/Scripts/Campfire/CampfireManager.cs:113-181 | the OnClick transition; stated by the Click lemmas below |
| Campfire.StoryFinishedOf | Assets/Scripts/Campfire/CampfireManager.cs:144-154 | the ShowStory callback; stated by StoryFinishedPlaysSupport and PlayedSupportKey |
| Campfire.ClickDuringStoryOnlyAdvances | Assets/Scripts/Campfire/CampfireManager.cs:115-120 | a click while a story plays only advances the dialogue; the selection slots are unchanged |
| Campfire.ClickOnNothingClears | Assets/Scripts/Campfire/CampfireManager.cs:168-178 | clicking empty space drops the selection and its light and nothing else |
| Campfire.ClickEndsUnhovered | Assets/Scripts/Campfire/CampfireManager.cs:121-179 | every non-story click that does not throw ends with nothing hovered |
| Campfire.ClickSelects | Assets/Scripts/Campfire/CampfireManager.cs:163-166 | with nothing selected a click on a character selects it |
| Campfire.ClickMovesSelection | Assets/Scripts/Campfire/CampfireManager.cs:156-161 | a click on a character whose support cannot be played moves the selection there and recomputes the hints |
| Campfire.ClickPlaysStory | Assets/Scripts/Campfire/CampfireManager.cs:128-154 | a playable pair: lights and hints off, everyone else hidden, the story for the level of the couple matched in either order, the key kept for the callback |
| Campfire.ClickPlayableErrors | Assets/Scripts/Campfire/CampfireManager.cs:133-143 | the two exceptions of a playable click, each exactly in its case, thrown after the hiding loop with slots and calls unchanged |
| Campfire.StoryFinishedPlaysSupport | Assets/Scripts/Campfire/CampfireManager.cs:144-154 | the callback shows every character, clears the selection and records PlaySupport then Save |
| Campfire.PlayedSupportKey | Assets/Scripts/Campfire/CampfireManager.cs:128-154 | playing a pair records PlaySupport with the key of the two names whichever was selected first, and leaves nothing selected |
| Campfire.UpdateOf | Assets/Scripts/Campfire/CampfireManager.cs:36-72 | the Update transition; stated by UpdateKeepsSelection |
| Campfire.UpdateKeepsSelection | Assets/Scripts/Campfire/CampfireManager.cs:36-72 | Update never changes the selection, the hidden characters or the calls, and leaves the character under the mouse hovered and lit |
| Campfire.SwitchOffEach | Assets/Scripts/Campfire/CampfireManager.cs:145-148 | the loop removes exactly the listed characters from a flag set |
| Campfire.HideForStory | Assets/Scripts/Campfire/CampfireManager.cs:133-141 | the loop switches every light and hint off and hides exactly the characters outside the pair |
| Campfire.DisplayLoop | Assets/Scripts/Campfire/CampfireManager.cs:79-110 | the loop computes DisplayAfter over the couples in order |
| Campfire.CampfireManager.constructor | Assets/Scripts/Campfire/CampfireManager.cs:13-26 | nothing selected, hovered, lit, hinted or hidden |
| Campfire.CampfireManager.UpdateSupportDisplay | Assets/Scripts/Campfire/CampfireManager.cs:77-111 | the hints become DisplayAfter of the old ones for the target |
| Campfire.CampfireManager.Update | Assets/Scripts/Campfire/CampfireManager.cs:36-72 | the fields perform UpdateOf |
| Campfire.CampfireManager.OnClick | Assets/Scripts/Campfire/CampfireManager.cs:113-181 | the fields and the outcome perform ClickOf |
| Campfire.CampfireManager.StoryFinished | Assets/Scripts/Campfire/CampfireManager.cs:144-154 | the fields perform StoryFinishedOf |

## Left out

- Camera panning, the skill bar built by `StartTurn`, the spell description, the distance and action-count texts, the AoE hint, the skill-selection colours, the world and close-up views: display only.
- `CharacterManager.Start`, `ReloadGame`, `OnClick`, `OnMovement`, `DisableConfirm`, `DisableDecline`: instantiation, scene loading, raycasts and input forwarding to the selected character. `OnClickCancel` also resets the selected player's `Mov`, which is not modelled.
- `IsUIActive` is read only by the camera and input code left out above.
- `WaitAndLoadCampfire`: the two-second delay and the scene load are one recorded `LoadCampfire` call.
- `GetPlayerInRange` (overlap sphere and linecast), the NavMesh agent and `StopMovements`: their results are the fields of `Enemy.Sensing`. `Target(Transform)` only sets a navigation destination.
- Quaternion rotation towards the target: one recorded `FaceTarget` call.
- `Vector3.Distance`: distances are integer inputs, so float rounding is not modelled. Two characters at equal distance are modelled as the source's stable `OrderBy` orders them: the earlier one in the roster wins (`Roster.ClosestIndex`).
- `OnDrawGizmos`, the `Debug.Log` calls and the `Awake` scene load of CampfireManager.
- The debug unlock in `CampfireManager.Awake` (Assets/Scripts/Campfire/CampfireManager.cs:33).
- The `Character` base class, `EnemyManager`, `PersistencyManager`/`SaveData`, `VNManager` and `CharacterCamp` are not part of this model. Their behaviour is what the recorded calls and the inputs `level`, `canPlay`, `isPlayingStory`, `lethal` and `hostileTarget` stand for.
- Names.Less: culture-sensitive `string.CompareTo` is replaced by the ordinal order on characters, so culture-specific collation is not modelled. The support-key lemmas depend only on the total-order properties.
- Turns.UnlockCalls: a dictionary key compared to `default` is modelled as the dictionary being empty. The source's `couple.Key == default` holds exactly then, since keys are never null.
- Campfire.ClickPlayableErrors: an exception thrown by `First` or `Stories[level]` is an `Outcome`. The model keeps the state as it was at the throw and does not model what Unity does afterwards.
- Enemy.EnemyController.Alert: the enemy list is a parameter standing for `CharacterManager.Instance.GetCharacters<EnemyController>()`, and the distances between enemies are a parameter too.
- Enemy.TickOf: the model assumes `_target` is still alive when FixedUpdate reads its position (Assets/Scripts/Enemy/EnemyController.cs:149). If the target was destroyed after `Target` armed the turn, Unity would throw there; the model takes any `targetDistance` and carries on.
- Campfire.StoryFinishedOf: the model assumes VNManager runs each callback handed to `ShowStory` at most once. A second run in the model does nothing. The source closure (Assets/Scripts/Campfire/CampfireManager.cs:144-154) would record `PlaySupport` and `Save` again.
- Affinity.IncreaseLove: scores are unbounded integers. The source adds to a 32-bit C# `int` (Assets/Scripts/CharacterManager.cs:334), which wraps around past 2147483647; that overflow is not modelled.
- Turns.RemoveActionOf: the action counter is an unbounded integer. The source's `_totalActionCount--` (Assets/Scripts/CharacterManager.cs:207) is a 32-bit `int` that would wrap around below -2147483648; that wrap is not modelled.
- Campfire.PlayOf: support levels are natural numbers (`level: Name -> nat`), so a negative level, for which `Stories[level]` would throw, cannot be represented. SaveData is not part of this model, and the model assumes it never reports a negative level.
