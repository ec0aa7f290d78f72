/** EnemyController: the alert flag and its one-hop propagation to nearby
    enemies, the arming of an enemy turn by Target, the turn resolution
    and sensing of FixedUpdate, and the alert on a non-lethal hit.

    Positions, the navigation agent and the physics queries are inputs:
    `dist` is Vector3.Distance between two enemies, and what the agent
    and the overlap sphere report for a tick arrives as the fields of
    `Sensing`. */
module Enemy {
  import opened Optional
  import opened Roster

  /** What an enemy asks of its Character base class in a tick. */
  datatype EnemyCall =
    | BaseFixedUpdate  // FixedUpdateParent()
    | FaceTarget       // the RotateTowards step towards _target
    | AttackCall       // Attack()
    | DisableCall      // Disable()

  /** What the engine reports for one FixedUpdate. */
  datatype Sensing = Sensing(
    pathPending: bool,        // _navigation.pathPending
    remainingDistance: int,   // _navigation.remainingDistance
    outOfMovement: bool,      // _distance <= 0
    hostileTarget: bool,      // HaveAnyNonFriendlyTarget
    targetDistance: int,      // distance from this enemy to _target
    playerVisible: bool)      // GetPlayerInRange(_alertRange) != null

  /** The enemy has reached the end of its move: the agent stopped within
      the first skill's range, or the movement budget is spent. */
  predicate Arrived(s: Sensing, range: int)
  {
    (!s.pathPending && s.remainingDistance < range) || s.outOfMovement
  }

  /** The four things a tick of an enemy's turn can do. */
  datatype Resolution =
    | KeepMoving  // not there yet: the turn goes on
    | Face        // no hostile target yet but `_target` is in range: rotate and return
    | Strike      // the turn ends with Attack
    | StandDown   // the turn ends with Disable

  /** The turn-resolution branch of FixedUpdate, for an enemy whose turn it is. */
  function Resolve(s: Sensing, range: int): Resolution
  {
    if !Arrived(s, range) then KeepMoving
    else if !s.hostileTarget && s.targetDistance < range then Face
    else if s.hostileTarget then Strike
    else StandDown
  }

  /** One FixedUpdate: the calls it makes, whether it is still this
      enemy's turn afterwards and whether the sensing branch raises the
      alarm (Alert(true)). */
  datatype Tick = Tick(calls: seq<EnemyCall>, myTurn: bool, raiseAlarm: bool)

  function TickOf(isMyTurn: bool, isAlerted: bool, s: Sensing, range: int): Tick
  {
    if isMyTurn then
      match Resolve(s, range)
      case KeepMoving => Tick([BaseFixedUpdate], true, false)
      case Face => Tick([BaseFixedUpdate, FaceTarget], true, false)
      case Strike => Tick([BaseFixedUpdate, AttackCall], false, !isAlerted && s.playerVisible)
      case StandDown => Tick([BaseFixedUpdate, DisableCall], false, !isAlerted && s.playerVisible)
    else Tick([], false, !isAlerted && s.playerVisible)
  }

  /** When the turn resolves it ends, with exactly one of Attack and
      Disable, and Attack exactly when there is a hostile target. */
  lemma ResolutionEndsTurnOnce(isAlerted: bool, s: Sensing, range: int)
    requires Arrived(s, range) && !(!s.hostileTarget && s.targetDistance < range)
    ensures var t := TickOf(true, isAlerted, s, range);
      && !t.myTurn
      && (AttackCall in t.calls <==> s.hostileTarget)
      && (DisableCall in t.calls <==> !s.hostileTarget)
      && (AttackCall in t.calls) != (DisableCall in t.calls)
  {
  }

  /** Without a hostile target but with `_target` in range the enemy only
      turns towards it: the turn goes on, nothing is attacked or disabled
      and the early return skips the sensing. */
  lemma FacingKeepsTurn(isAlerted: bool, s: Sensing, range: int)
    requires Arrived(s, range) && !s.hostileTarget && s.targetDistance < range
    ensures var t := TickOf(true, isAlerted, s, range);
      && t.myTurn && t.calls == [BaseFixedUpdate, FaceTarget] && !t.raiseAlarm
  {
  }

  /** The alarm is raised exactly when, after the turn branch, it is not
      this enemy's turn, it is not alerted yet and a player is visible. */
  lemma SensingOnlyWhenIdle(isMyTurn: bool, isAlerted: bool, s: Sensing, range: int)
    ensures var t := TickOf(isMyTurn, isAlerted, s, range);
      t.raiseAlarm <==> !t.myTurn && !isAlerted && s.playerVisible
  {
  }

  /** A tick never starts a turn, and Attack or Disable only happen in a
      tick that ends one. */
  lemma TickNeverArmsTurn(isMyTurn: bool, isAlerted: bool, s: Sensing, range: int)
    ensures var t := TickOf(isMyTurn, isAlerted, s, range);
      && (t.myTurn ==> isMyTurn)
      && (AttackCall in t.calls || DisableCall in t.calls <==> isMyTurn && !t.myTurn)
  {
  }

  class EnemyController {
    const alertRange: int   // _alertRange
    const skillRange: int   // Info.Skills[0].Range
    var isAlerted: bool     // IsAlerted
    var isMyTurn: bool      // _isMyTurn
    var target: Option<Character>       // _target
    var destination: Option<Character>  // _navigation.destination, as the character it was set to
    var stoppingDistance: int           // _navigation.stoppingDistance
    var calls: seq<EnemyCall>

    /** `_target` is set whenever it is this enemy's turn. */
    ghost predicate Valid()
      reads this
    {
      isMyTurn ==> target.Some?
    }

    /** Awake: IsAlerted starts as _startAwareOfPlayer. */
    constructor (startAwareOfPlayer: bool, alertRange: int, skillRange: int, stoppingDistance: int)
      ensures Valid()
      ensures isAlerted == startAwareOfPlayer && !isMyTurn && target == None && destination == None
      ensures this.alertRange == alertRange && this.skillRange == skillRange
      ensures this.stoppingDistance == stoppingDistance && calls == []
    {
      this.alertRange, this.skillRange := alertRange, skillRange;
      isAlerted, isMyTurn, target, destination := startAwareOfPlayer, false, None, None;
      this.stoppingDistance, calls := stoppingDistance, [];
    }

    /** Alert: set IsAlerted and, when screaming for help, Alert(false)
        every enemy of `enemies` that CloseFriends reports. Only the
        caller's alert range counts and the friends do not pass it on. */
    method Alert(alertOthers: bool, enemies: seq<EnemyController>,
                 dist: (EnemyController, EnemyController) -> int)
      modifies this`isAlerted, (set e | e in enemies)`isAlerted
      decreases if alertOthers then 1 else 0
      ensures isAlerted
      ensures forall e :: e in enemies ==>
        e.isAlerted == (old(e.isAlerted) || e in Alarmed(enemies, this, alertOthers, alertRange, dist))
    {
      isAlerted := true;
      if alertOthers {
        var friends := CloseFriends(enemies, this, alertRange, dist);
        var k := 0;
        while k < |friends|
          invariant 0 <= k <= |friends|
          invariant isAlerted
          invariant forall e :: e in enemies ==>
            e.isAlerted == (old(e.isAlerted) || e == this || e in friends[..k])
        {
          assert friends[..k + 1] == friends[..k] + [friends[k]];
          friends[k].Alert(false, enemies, dist);
          k := k + 1;
        }
        assert friends[..k] == friends;
      }
    }

    /** Target(Character): arm the turn against `t`; walk towards it only
        when it is farther than the first skill's range. */
    method Target(t: Character, distance: int)
      requires Valid()
      modifies this`isMyTurn, this`target, this`destination, this`stoppingDistance
      ensures Valid()
      ensures isMyTurn && target == Some(t)
      ensures distance > skillRange ==> destination == Some(t) && stoppingDistance == skillRange
      ensures distance <= skillRange ==>
        destination == old(destination) && stoppingDistance == old(stoppingDistance)
    {
      if distance > skillRange {
        destination := Some(t);
        stoppingDistance := skillRange;
      }
      isMyTurn := true;
      target := Some(t);
    }

    /** FixedUpdate: resolve the turn, then sense unless the facing branch
        returned early. */
    method FixedUpdate(s: Sensing, enemies: seq<EnemyController>,
                       dist: (EnemyController, EnemyController) -> int)
      requires Valid()
      modifies this`isMyTurn, this`calls, this`isAlerted, (set e | e in enemies)`isAlerted
      ensures Valid()
      ensures var t := TickOf(old(isMyTurn), old(isAlerted), s, skillRange);
        && calls == old(calls) + t.calls
        && isMyTurn == t.myTurn
        && (t.raiseAlarm ==> isAlerted)
        && (!t.raiseAlarm ==> isAlerted == old(isAlerted))
        && (forall e :: e in enemies ==>
              e.isAlerted == (old(e.isAlerted) ||
                              (t.raiseAlarm && e in Alarmed(enemies, this, true, alertRange, dist))))
    {
      if isMyTurn {
        calls := calls + [BaseFixedUpdate];
        if Arrived(s, skillRange) {
          if !s.hostileTarget && s.targetDistance < skillRange {
            calls := calls + [FaceTarget];
            return;
          }
          isMyTurn := false;
          if s.hostileTarget {
            calls := calls + [AttackCall];
          } else {
            calls := calls + [DisableCall];
          }
        }
      }
      if !isMyTurn && !isAlerted {
        if s.playerVisible {
          Alert(true, enemies, dist);
        }
      }
    }

    /** TakeDamage: `lethal` is what the base class reports. A lethal hit
        changes nothing here; any other hit raises the alarm. */
    method TakeDamage(lethal: bool, enemies: seq<EnemyController>,
                      dist: (EnemyController, EnemyController) -> int) returns (dead: bool)
      modifies this`isAlerted, (set e | e in enemies)`isAlerted
      ensures dead == lethal
      ensures lethal ==> isAlerted == old(isAlerted)
      ensures !lethal ==> isAlerted
      ensures forall e :: e in enemies ==>
        e.isAlerted == (old(e.isAlerted) ||
                        (!lethal && e in Alarmed(enemies, this, true, alertRange, dist)))
    {
      if lethal {
        return true;
      }
      Alert(true, enemies, dist);
      return false;
    }
  }

  /** GetCloseFriends: the enemies other than `self` strictly closer to
      it than `range`, in roster order. */
  function CloseFriends(enemies: seq<EnemyController>, self: EnemyController, range: int,
                        dist: (EnemyController, EnemyController) -> int): (r: seq<EnemyController>)
    ensures |r| <= |enemies|
    ensures forall i :: 0 <= i < |r| ==> r[i] in enemies && r[i] != self && dist(r[i], self) < range
    ensures forall i :: 0 <= i < |enemies| ==>
      (enemies[i] in r <==> enemies[i] != self && dist(enemies[i], self) < range)
  {
    if enemies == [] then []
    else
      var rest := CloseFriends(enemies[1..], self, range, dist);
      var e := enemies[0];
      assert forall i :: 1 <= i < |enemies| ==> enemies[i] == enemies[1..][i - 1];
      if e != self && dist(e, self) < range then [e] + rest else rest
  }

  /** The enemies one Alert call raises: the caller and, when it screams
      for help, its close friends. */
  function Alarmed(enemies: seq<EnemyController>, self: EnemyController, alertOthers: bool,
                   range: int, dist: (EnemyController, EnemyController) -> int): set<EnemyController>
  {
    {self} + (if alertOthers then (set e | e in CloseFriends(enemies, self, range, dist)) else {})
  }

  /** Every enemy an alert reaches is the caller or one of the enemies
      strictly within the caller's range; without screaming for help it
      reaches only the caller. */
  lemma AlarmedWithinRange(enemies: seq<EnemyController>, self: EnemyController, alertOthers: bool,
                           range: int, dist: (EnemyController, EnemyController) -> int)
    ensures self in Alarmed(enemies, self, alertOthers, range, dist)
    ensures !alertOthers ==> Alarmed(enemies, self, alertOthers, range, dist) == {self}
    ensures forall e :: e in Alarmed(enemies, self, alertOthers, range, dist) ==>
      e == self || (e in enemies && dist(e, self) < range)
    ensures alertOthers ==> forall i :: 0 <= i < |enemies| && dist(enemies[i], self) < range ==>
      enemies[i] in Alarmed(enemies, self, alertOthers, range, dist)
  {
  }

  /** Propagation stops after one hop: an enemy that is neither the caller
      nor within its range is not reached, however close it is to one of
      the caller's friends. */
  lemma AlertOneHop(enemies: seq<EnemyController>, self: EnemyController, range: int,
                    dist: (EnemyController, EnemyController) -> int, far: EnemyController)
    requires far != self && dist(far, self) >= range
    ensures far !in Alarmed(enemies, self, true, range, dist)
  {
  }
}
