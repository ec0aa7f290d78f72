/** CharacterManager: the roster, the two-phase turn machine with its
    action counter, the game-over freeze, the affinity scores and the
    cancel-button popups.

    The pure half states each operation as a transition of a `Turn`
    value; the class `CharacterManager` holds the same data in fields and
    its methods are proved to perform exactly those transitions. */
module Turns {
  import opened Optional
  import opened Names
  import opened Roster
  import opened Affinity

  /** Calls CharacterManager makes into code outside this model, in the
      order it makes them. */
  datatype Call =
    | CharacterEndTurn(c: Character)  // Character.EndTurn()
    | EnemyStartTurn                  // EnemyManager.StartTurn()
    | EnemyDoAction                   // EnemyManager.DoAction()
    | UnlockSupport(key: Name)        // SaveData.UnlockSupport(key)
    | SaveProgress                    // PersistencyManager.Save()
    | LoadCampfire                    // WaitAndLoadCampfire started
    | Enable(c: Character)            // Character.Enable() in StartTurn

  /** The team whose turn it is. */
  function ActiveTeam(isPlayerTurn: bool): (t: Team)
    ensures (t == Player) == isPlayerTurn
  {
    if isPlayerTurn then Player else Enemy
  }

  /** The game state CharacterManager keeps, apart from the UI. */
  datatype Turn = Turn(
    characters: seq<Character>,   // _characters
    isPlayerTurn: bool,           // _isPlayerTurn
    actions: int,                 // _totalActionCount
    gameStarted: bool,            // _gameStarted
    gameOverShown: bool,          // _gameOver.activeInHierarchy
    gameOverReason: string,       // _gameOverReasonText.text
    canBePlayed: set<Character>,  // the characters the manager set CanBePlayed on; only grows
    love: LoveList,               // _love
    calls: seq<Call>)

  /** The state before the first character registers. */
  function Initial(): Turn
  {
    Turn([], false, 0, false, false, "", {}, [], [])
  }

  /** The game-over screen is only ever shown during the player turn. */
  predicate Consistent(s: Turn)
  {
    s.gameOverShown ==> s.isPlayerTurn
  }

  /** The game-over screen is up during the player turn: EndTurn refuses. */
  predicate Frozen(s: Turn)
  {
    s.isPlayerTurn && s.gameOverShown
  }

  /** Character.EndTurn on each member of `team`, last member first. */
  function EndTurnCalls(team: seq<Character>): (r: seq<Call>)
    ensures |r| == |team|
    ensures forall k :: 0 <= k < |team| ==> r[k] == CharacterEndTurn(team[|team| - 1 - k])
  {
    if team == [] then [] else EndTurnCalls(team[1..]) + [CharacterEndTurn(team[0])]
  }

  /** EndTurn: end the turn of every character of the outgoing team, make
      each of them playable again, flip the phase and count the incoming
      team's actions; nothing while frozen. */
  function EndTurnOf(s: Turn): Turn
  {
    if Frozen(s) then s
    else
      var outgoing := OfTeam(s.characters, ActiveTeam(s.isPlayerTurn));
      var isPlayerTurn := !s.isPlayerTurn;
      s.(isPlayerTurn := isPlayerTurn,
         actions := |OfTeam(s.characters, ActiveTeam(isPlayerTurn))|,
         canBePlayed := s.canBePlayed + (set c | c in outgoing),
         calls := s.calls + EndTurnCalls(outgoing) + (if isPlayerTurn then [] else [EnemyStartTurn]))
  }

  /** Outside the freeze EndTurn flips the phase, gives the incoming team
      one action per member, makes every character of the outgoing team
      playable and changes nothing else but the calls; while frozen it
      changes nothing. */
  lemma EndTurnEffect(s: Turn)
    ensures Frozen(s) ==> EndTurnOf(s) == s
    ensures !Frozen(s) ==>
      var r := EndTurnOf(s);
      && r.isPlayerTurn == !s.isPlayerTurn
      && r.actions == |OfTeam(s.characters, Other(ActiveTeam(s.isPlayerTurn)))|
      && (forall c :: c in r.canBePlayed <==>
            c in s.canBePlayed || (c in s.characters && c.team == ActiveTeam(s.isPlayerTurn)))
      && r == s.(isPlayerTurn := r.isPlayerTurn, actions := r.actions,
                 canBePlayed := r.canBePlayed, calls := r.calls)
  {
    OfTeamMembers(s.characters, ActiveTeam(s.isPlayerTurn));
  }

  /** The calls of EndTurn: Character.EndTurn on each member of the
      outgoing team, last registered first, then EnemyManager.StartTurn
      when the enemies come in. */
  lemma EndTurnCallOrder(s: Turn)
    requires !Frozen(s)
    ensures var r := EndTurnOf(s);
      var outgoing := OfTeam(s.characters, ActiveTeam(s.isPlayerTurn));
      && |r.calls| == |s.calls| + |outgoing| + (if s.isPlayerTurn then 1 else 0)
      && r.calls[..|s.calls|] == s.calls
      && (forall k :: |s.calls| <= k < |s.calls| + |outgoing| ==>
            r.calls[k] == CharacterEndTurn(outgoing[|s.calls| + |outgoing| - 1 - k]))
      && (s.isPlayerTurn ==> r.calls[|r.calls| - 1] == EnemyStartTurn)
  {
    var outgoing := OfTeam(s.characters, ActiveTeam(s.isPlayerTurn));
    var tail := if s.isPlayerTurn then [EnemyStartTurn] else [];
    assert EndTurnOf(s).calls == s.calls + EndTurnCalls(outgoing) + tail;
  }

  /** GameOver: bring the turn back to the player, then show the screen. */
  function GameOverOf(s: Turn, reason: string): (r: Turn)
    ensures r.isPlayerTurn && r.gameOverShown && r.gameOverReason == reason
    ensures r.characters == s.characters && r.love == s.love && r.gameStarted == s.gameStarted
    ensures s.isPlayerTurn ==> r == s.(gameOverShown := true, gameOverReason := reason)
  {
    var s1 := if !s.isPlayerTurn then EndTurnOf(s) else s;
    s1.(gameOverShown := true, gameOverReason := reason)
  }

  /** RegisterCharacter: append, and start the game (EndTurn out of the
      initial enemy phase) the first time the player team is complete. */
  function RegisterOf(s: Turn, c: Character, playerCount: nat): (r: Turn)
    ensures r.characters == s.characters + [c]
    ensures r.gameStarted == (s.gameStarted || |OfTeam(s.characters + [c], Player)| == playerCount)
    ensures s.gameStarted || |OfTeam(s.characters + [c], Player)| != playerCount ==>
      r == s.(characters := s.characters + [c])
  {
    var s1 := s.(characters := s.characters + [c]);
    if !s1.gameStarted && |OfTeam(s1.characters, Player)| == playerCount then
      EndTurnOf(s1.(gameStarted := true))
    else s1
  }

  /** RemoveAction: one action fewer; at zero the turn ends, otherwise
      during the enemy turn the next enemy is asked to act. */
  function RemoveActionOf(s: Turn): (r: Turn)
    ensures s.actions != 1 ==> r.actions == s.actions - 1 && r.isPlayerTurn == s.isPlayerTurn
    ensures s.actions != 1 ==>
      r == s.(actions := s.actions - 1,
              calls := s.calls + (if s.isPlayerTurn then [] else [EnemyDoAction]))
    ensures s.actions == 1 ==> r == EndTurnOf(s.(actions := 0))
  {
    var s1 := s.(actions := s.actions - 1);
    if s1.actions == 0 then EndTurnOf(s1)
    else if !s1.isPlayerTurn then s1.(calls := s1.calls + [EnemyDoAction])
    else s1
  }

  /** The calls UnlockSupport makes: none without any affinity, otherwise
      the unlock of the strongest pair's key and a save. */
  function UnlockCalls(love: LoveList): (r: seq<Call>)
    ensures love == [] ==> r == []
    ensures love != [] ==> r == [UnlockSupport(UnlockKey(love).value), SaveProgress]
  {
    match UnlockKey(love)
    case None => []
    case Some(key) => [UnlockSupport(key), SaveProgress]
  }

  /** UnregisterCharacter: remove `c`; no player left is a game over and
      wins over no enemy left, which unlocks a support and schedules the
      campfire scene. */
  function UnregisterOf(s: Turn, c: Character): Turn
  {
    var s1 := s.(characters := RemoveFirst(s.characters, c));
    if OfTeam(s1.characters, Player) == [] then GameOverOf(s1, "All your characters collapsed")
    else if OfTeam(s1.characters, Enemy) == [] then
      s1.(calls := s1.calls + UnlockCalls(s1.love) + [LoadCampfire])
    else s1
  }

  /** Every operation keeps the game-over screen inside the player turn. */
  lemma OperationsKeepConsistent(s: Turn, c: Character, n: nat, reason: string)
    requires Consistent(s)
    ensures Consistent(EndTurnOf(s)) && Consistent(GameOverOf(s, reason))
    ensures Consistent(RegisterOf(s, c, n)) && Consistent(RemoveActionOf(s))
    ensures Consistent(UnregisterOf(s, c))
  {
  }

  /** The game starts when the player team becomes complete, in the
      player turn with one action per player, and never starts again. */
  lemma {:induction false} GameStartsOnce(s: Turn, c: Character, n: nat)
    requires !s.gameStarted && !s.isPlayerTurn && |OfTeam(s.characters + [c], Player)| == n
    ensures var r := RegisterOf(s, c, n);
      && r.gameStarted && r.isPlayerTurn && r.actions == n
      && forall d :: RegisterOf(r, d, n) == r.(characters := r.characters + [d])
  {
  }

  /** `j` consecutive RemoveAction calls. */
  function RemoveActions(s: Turn, j: nat): Turn
  {
    if j == 0 then s else RemoveActionOf(RemoveActions(s, j - 1))
  }

  /** Before the counter reaches zero the turn does not change and each
      call takes exactly one action. */
  lemma {:induction false} RemoveActionsBeforeZero(s: Turn, j: nat)
    requires j < s.actions
    ensures RemoveActions(s, j).actions == s.actions - j
    ensures RemoveActions(s, j).isPlayerTurn == s.isPlayerTurn
    ensures RemoveActions(s, j).characters == s.characters
    ensures RemoveActions(s, j).gameOverShown == s.gameOverShown
  {
    if j > 0 {
      RemoveActionsBeforeZero(s, j - 1);
    }
  }

  /** The action that brings the counter from one to zero ends the turn. */
  lemma LastActionEndsTurn(p: Turn)
    requires p.actions == 1 && !p.gameOverShown
    ensures RemoveActionOf(p).isPlayerTurn == !p.isPlayerTurn
    ensures RemoveActionOf(p).actions == |OfTeam(p.characters, Other(ActiveTeam(p.isPlayerTurn)))|
  {
  }

  /** Using up a positive action budget flips the phase exactly when it
      reaches zero, and the next phase gets one action per member of the
      incoming team. */
  lemma BudgetExhaustionEndsTurn(s: Turn)
    requires s.actions >= 1 && !s.gameOverShown
    ensures var r := RemoveActionOf(RemoveActions(s, s.actions - 1));
      && r.isPlayerTurn == !s.isPlayerTurn
      && r.actions == |OfTeam(s.characters, Other(ActiveTeam(s.isPlayerTurn)))|
  {
    var p := RemoveActions(s, s.actions - 1);
    RemoveActionsBeforeZero(s, s.actions - 1);
    LastActionEndsTurn(p);
  }

  /** Two players, three enemies: the two player actions hand the turn to
      the enemies, with three actions and the enemy turn started. */
  lemma TwoPlayersThreeEnemies(s: Turn)
    requires |OfTeam(s.characters, Player)| == 2 && |OfTeam(s.characters, Enemy)| == 3
    requires s.isPlayerTurn && !s.gameOverShown && s.actions == 2
    ensures var r := RemoveActionOf(RemoveActionOf(s));
      && !r.isPlayerTurn && r.actions == 3 && r.calls[|r.calls| - 1] == EnemyStartTurn
  {
  }

  /** After GameOver the turn is frozen: EndTurn changes nothing, and
      RemoveAction and Unregister only touch the counter and the roster. */
  lemma GameOverFreezesTurn(s: Turn, reason: string, c: Character)
    ensures var r := GameOverOf(s, reason);
      && Frozen(r)
      && EndTurnOf(r) == r
      && RemoveActionOf(r) == r.(actions := r.actions - 1)
      && Frozen(UnregisterOf(r, c))
  {
  }

  /** Removing the last player is a game over even when no enemy is left:
      no support is unlocked and the campfire is not scheduled. */
  lemma PlayerWipeTakesPrecedence(s: Turn, c: Character)
    requires OfTeam(RemoveFirst(s.characters, c), Player) == []
    ensures var r := UnregisterOf(s, c);
      && Frozen(r) && r.love == s.love
      && |r.calls| >= |s.calls| && r.calls[..|s.calls|] == s.calls
      && forall k :: |s.calls| <= k < |r.calls| ==> r.calls[k].CharacterEndTurn?
  {
    var s1 := s.(characters := RemoveFirst(s.characters, c));
    if !s1.isPlayerTurn {
      var outgoing := OfTeam(s1.characters, Enemy);
      assert EndTurnOf(s1).calls == s1.calls + EndTurnCalls(outgoing);
    }
  }

  /** Unregistering always removes the character and never touches the
      affinity scores. */
  lemma UnregisterRemoves(s: Turn, c: Character)
    ensures UnregisterOf(s, c).characters == RemoveFirst(s.characters, c)
    ensures UnregisterOf(s, c).love == s.love
  {
  }

  /** While both teams still have members, unregistering only shrinks the
      roster. */
  lemma UnregisterMidBattle(s: Turn, c: Character)
    requires OfTeam(RemoveFirst(s.characters, c), Player) != []
    requires OfTeam(RemoveFirst(s.characters, c), Enemy) != []
    ensures UnregisterOf(s, c) == s.(characters := RemoveFirst(s.characters, c))
  {
  }

  lemma EnemyClearedCalls(s: Turn, c: Character)
    requires OfTeam(RemoveFirst(s.characters, c), Player) != []
    requires OfTeam(RemoveFirst(s.characters, c), Enemy) == []
    ensures UnregisterOf(s, c).calls == s.calls + UnlockCalls(s.love) + [LoadCampfire]
  {
  }

  lemma EnemyClearedKeepsTurn(s: Turn, c: Character)
    requires OfTeam(RemoveFirst(s.characters, c), Player) != []
    requires OfTeam(RemoveFirst(s.characters, c), Enemy) == []
    ensures UnregisterOf(s, c).isPlayerTurn == s.isPlayerTurn
    ensures UnregisterOf(s, c).actions == s.actions
    ensures UnregisterOf(s, c).gameOverShown == s.gameOverShown
  {
  }

  /** A removal that leaves a player and no enemy resolves the affinity
      once in that call (nothing without any score, otherwise the
      strongest pair's key followed by a save), then schedules the
      campfire scene; the phase, the counter and the game-over screen
      stay as they were. */
  lemma EnemyClearedUnlocks(s: Turn, c: Character)
    requires OfTeam(RemoveFirst(s.characters, c), Player) != []
    requires OfTeam(RemoveFirst(s.characters, c), Enemy) == []
    ensures var r := UnregisterOf(s, c);
      && r.calls == s.calls + (if s.love == [] then [] else
                                 [UnlockSupport(UnlockKey(s.love).value), SaveProgress])
                            + [LoadCampfire]
      && r.isPlayerTurn == s.isPlayerTurn && r.actions == s.actions
      && r.gameOverShown == s.gameOverShown
  {
    EnemyClearedCalls(s, c);
    EnemyClearedKeepsTurn(s, c);
  }

  /** Nothing remembers that the enemy side was already cleared: a second
      removal (a player falling during the delay, or the same enemy
      unregistered twice) while a player remains unlocks, saves and
      schedules the campfire scene again. */
  lemma EnemyClearedRepeats(s: Turn, c: Character, d: Character)
    requires OfTeam(RemoveFirst(s.characters, c), Enemy) == []
    requires OfTeam(RemoveFirst(RemoveFirst(s.characters, c), d), Player) != []
    ensures UnregisterOf(UnregisterOf(s, c), d).calls ==
      s.calls + UnlockCalls(s.love) + [LoadCampfire] + UnlockCalls(s.love) + [LoadCampfire]
  {
    var once := RemoveFirst(s.characters, c);
    OfTeamRemoveFirst(once, d, Enemy);
    if OfTeam(once, Player) == [] {
      OfTeamRemoveFirst(once, d, Player);
      assert false;
    }
    EnemyClearedCalls(s, c);
    UnregisterRemoves(s, c);
    var r1 := UnregisterOf(s, c);
    EnemyClearedCalls(r1, d);
    assert UnregisterOf(r1, d).calls == r1.calls + UnlockCalls(r1.love) + [LoadCampfire];
  }

  /** The two confirmation popups of the cancel button. */
  datatype Popups = Popups(endTurn: bool, disable: bool)

  /** OnClickCancel: in the player turn and without the game-over screen,
      close the end-turn popup, else close the disable popup, else open
      the end-turn popup when no character is selected, else open the
      disable popup unless an automatic disable is pending. */
  function CancelOf(p: Popups, isPlayerTurn: bool, gameOverShown: bool,
                    selected: bool, pendingAutoDisable: bool): Popups
  {
    if !isPlayerTurn || gameOverShown then p
    else if p.endTurn then p.(endTurn := false)
    else if p.disable then p.(disable := false)
    else if !selected then p.(endTurn := true)
    else if !pendingAutoDisable then p.(disable := true)
    else p
  }

  /** The checks of the cancel button, in order: outside the player turn
      or with the game-over screen nothing changes; an open end-turn popup
      is closed first, then an open disable popup; with both closed, the
      end-turn popup opens exactly when nothing is selected and the
      disable popup exactly when a character is selected that is not
      already disabling itself. Each click changes at most one popup. */
  lemma CancelPrecedence(p: Popups, isPlayerTurn: bool, gameOverShown: bool,
                         selected: bool, pendingAutoDisable: bool)
    ensures var r := CancelOf(p, isPlayerTurn, gameOverShown, selected, pendingAutoDisable);
      && (!isPlayerTurn || gameOverShown ==> r == p)
      && (isPlayerTurn && !gameOverShown && p.endTurn ==> r == p.(endTurn := false))
      && (isPlayerTurn && !gameOverShown && !p.endTurn && p.disable ==> r == p.(disable := false))
      && (isPlayerTurn && !gameOverShown && !p.endTurn && !p.disable ==>
            r == Popups(!selected, selected && !pendingAutoDisable))
      && (r.endTurn == p.endTurn || r.disable == p.disable)
  {
  }

  /** The cancel button never leaves both popups open. */
  lemma CancelKeepsOnePopup(p: Popups, isPlayerTurn: bool, gameOverShown: bool,
                            selected: bool, pendingAutoDisable: bool)
    requires !(p.endTurn && p.disable)
    ensures var r := CancelOf(p, isPlayerTurn, gameOverShown, selected, pendingAutoDisable);
      !(r.endTurn && r.disable)
  {
  }

  /** With nothing selected, the cancel button toggles the end-turn popup. */
  lemma CancelTogglesEndTurnPopup(pendingAutoDisable: bool)
    ensures var closed := Popups(false, false);
      && CancelOf(closed, true, false, false, pendingAutoDisable) == Popups(true, false)
      && CancelOf(Popups(true, false), true, false, false, pendingAutoDisable) == closed
  {
  }

  /** The first loop of EndTurn: Character.EndTurn on each member of
      `team`, walking the list from its end. */
  method EndEachTurn(log0: seq<Call>, team: seq<Character>) returns (log: seq<Call>)
    ensures log == log0 + EndTurnCalls(team)
  {
    log := log0;
    var i := |team| - 1;
    while i >= 0
      invariant -1 <= i < |team|
      invariant log == log0 + EndTurnCalls(team[i + 1..])
    {
      assert team[i..][1..] == team[i + 1..];
      log := log + [CharacterEndTurn(team[i])];
      i := i - 1;
    }
    assert team[0..] == team;
  }

  /** The second loop of EndTurn: CanBePlayed = true on each member of
      `team`. */
  method MakePlayable(ready0: set<Character>, team: seq<Character>) returns (ready: set<Character>)
    ensures ready == ready0 + (set c | c in team)
  {
    ready := ready0;
    var k := 0;
    while k < |team|
      invariant 0 <= k <= |team|
      invariant ready == ready0 + (set c | c in team[..k])
    {
      assert team[..k + 1] == team[..k] + [team[k]];
      ready := ready + {team[k]};
      k := k + 1;
    }
    assert team[..k] == team;
  }

  /** The Unity component: the fields of `Turn` plus the selected
      character and the popups. */
  class CharacterManager {
    const playerCount: nat             // _players.Length
    var characters: seq<Character>
    var isPlayerTurn: bool
    var totalActionCount: int
    var gameStarted: bool
    var gameOverShown: bool
    var gameOverReason: string
    var canBePlayed: set<Character>
    var love: LoveList
    var calls: seq<Call>
    var currentPlayer: Option<Character>  // _currentPlayer
    var endTurnPopup: bool                // _endTurnPopup.activeInHierarchy
    var disablePopup: bool                // _disablePopup.activeInHierarchy

    ghost predicate Valid()
      reads this
    {
      Consistent(State()) && !(endTurnPopup && disablePopup)
    }

    function State(): Turn
      reads this
    {
      Turn(characters, isPlayerTurn, totalActionCount, gameStarted, gameOverShown,
           gameOverReason, canBePlayed, love, calls)
    }

    function PopupState(): Popups
      reads this
    {
      Popups(endTurnPopup, disablePopup)
    }

    constructor (playerCount: nat)
      ensures Valid() && this.playerCount == playerCount
      ensures State() == Initial() && currentPlayer == None && PopupState() == Popups(false, false)
    {
      this.playerCount := playerCount;
      characters, isPlayerTurn, totalActionCount := [], false, 0;
      gameStarted, gameOverShown, gameOverReason := false, false, "";
      canBePlayed, love, calls := {}, [], [];
      currentPlayer, endTurnPopup, disablePopup := None, false, false;
    }

    method EndTurn()
      requires Valid()
      modifies this`characters, this`isPlayerTurn, this`totalActionCount, this`gameStarted,
        this`gameOverShown, this`gameOverReason, this`canBePlayed, this`calls
      ensures Valid()
      ensures State() == EndTurnOf(old(State()))
    {
      if isPlayerTurn && gameOverShown {
        return; // the player turn cannot end once the game is lost
      }
      ghost var before := State();
      var outgoing := OfTeam(characters, ActiveTeam(isPlayerTurn));
      var log := EndEachTurn(calls, outgoing);
      var ready := MakePlayable(canBePlayed, outgoing);
      isPlayerTurn := !isPlayerTurn;
      totalActionCount := |OfTeam(characters, ActiveTeam(isPlayerTurn))|;
      if !isPlayerTurn {
        log := log + [EnemyStartTurn];
      }
      canBePlayed, calls := ready, log;
      assert State() == EndTurnOf(before);
    }

    method GameOver(reason: string)
      requires Valid()
      modifies this`characters, this`isPlayerTurn, this`totalActionCount, this`gameStarted,
        this`gameOverShown, this`gameOverReason, this`canBePlayed, this`calls
      ensures Valid()
      ensures State() == GameOverOf(old(State()), reason)
    {
      if !isPlayerTurn {
        EndTurn();
      }
      gameOverShown, gameOverReason := true, reason;
    }

    method RegisterCharacter(c: Character)
      requires Valid()
      modifies this`characters, this`isPlayerTurn, this`totalActionCount, this`gameStarted,
        this`gameOverShown, this`gameOverReason, this`canBePlayed, this`calls
      ensures Valid()
      ensures State() == RegisterOf(old(State()), c, playerCount)
    {
      characters := characters + [c];
      if !gameStarted && |OfTeam(characters, Player)| == playerCount {
        gameStarted := true;
        EndTurn();
      }
    }

    method UnregisterCharacter(c: Character)
      requires Valid()
      modifies this`characters, this`isPlayerTurn, this`totalActionCount, this`gameStarted,
        this`gameOverShown, this`gameOverReason, this`canBePlayed, this`calls
      ensures Valid()
      ensures State() == UnregisterOf(old(State()), c)
    {
      ghost var before := State();
      characters := RemoveFirst(characters, c);
      ghost var removed := State();
      if OfTeam(characters, Player) == [] {
        GameOver("All your characters collapsed");
        assert State() == GameOverOf(removed, "All your characters collapsed");
      } else if OfTeam(characters, Enemy) == [] {
        UnlockSupport();
        calls := calls + [LoadCampfire];
        assert State() == removed.(calls := removed.calls + UnlockCalls(removed.love) + [LoadCampfire]);
      }
      assert State() == UnregisterOf(before, c);
    }

    method UnlockSupport()
      modifies this`calls
      ensures calls == old(calls) + UnlockCalls(love)
    {
      var key := UnlockKey(love);
      if key.None? {
        return; // not much love during this game
      }
      calls := calls + [Call.UnlockSupport(key.value), SaveProgress];
    }

    method RemoveAction()
      requires Valid()
      modifies this`characters, this`isPlayerTurn, this`totalActionCount, this`gameStarted,
        this`gameOverShown, this`gameOverReason, this`canBePlayed, this`calls
      ensures Valid()
      ensures State() == RemoveActionOf(old(State()))
    {
      totalActionCount := totalActionCount - 1;
      if totalActionCount == 0 {
        EndTurn();
      } else if !isPlayerTurn {
        calls := calls + [EnemyDoAction];
      }
    }

    method IncreaseLove(a: Character, b: Character, amount: int)
      modifies this`love
      ensures love == Affinity.IncreaseLove(old(love), a, b, amount)
    {
      var couple := FindCouple(love, a, b);
      if couple.None? {
        love := love + [Entry(a, b, amount)];
        return;
      }
      love := love[couple.value := love[couple.value].(love := love[couple.value].love + amount)];
    }

    /** The selection part of StartTurn. */
    method StartTurn(c: Character)
      modifies this`currentPlayer, this`calls
      ensures currentPlayer == Some(c) && calls == old(calls) + [Enable(c)]
      ensures AmIActive(c) && forall d :: AmIActive(d) <==> d.id == c.id
    {
      currentPlayer := Some(c);
      calls := calls + [Enable(c)];
    }

    method UnsetPlayer()
      modifies this`currentPlayer
      ensures currentPlayer == None
      ensures forall d :: !AmIActive(d)
    {
      currentPlayer := None;
    }

    /** The selected character has the same instance id as `c`. */
    function AmIActive(c: Character): bool
      reads this
    {
      currentPlayer.Some? && currentPlayer.value.id == c.id
    }

    /** `pendingAutoDisable` is the selected character's PendingAutoDisable. */
    method OnClickCancel(pendingAutoDisable: bool)
      requires Valid()
      modifies this`endTurnPopup, this`disablePopup
      ensures Valid()
      ensures PopupState() == CancelOf(old(PopupState()), isPlayerTurn, gameOverShown,
                                   currentPlayer.Some?, pendingAutoDisable)
    {
      if isPlayerTurn {
        if gameOverShown {
          return;
        }
        if endTurnPopup {
          endTurnPopup := false;
        } else if disablePopup {
          disablePopup := false;
        } else if currentPlayer.None? {
          endTurnPopup := true;
        } else if !pendingAutoDisable {
          disablePopup := true;
        }
      }
    }
  }
}
