/** The roster of combatants held by CharacterManager and the queries over
    it: the type filter `x is PlayerController` / `x is EnemyController`
    (GetCharacters, Count, Any, Where), List.Remove and
    GetClosestCharacter. */
module Roster {
  import opened Optional
  import opened Names

  /** PlayerController or EnemyController. */
  datatype Team = Player | Enemy

  /** A combatant: a stable identity (the Unity instance), its team and
      the name shown in support keys (Info.Name). */
  datatype Character = Character(id: nat, team: Team, name: Name)

  function Other(t: Team): (r: Team)
    ensures r != t
  {
    if t == Player then Enemy else Player
  }

  /** The members of team `t`, in roster order. */
  function OfTeam(s: seq<Character>, t: Team): (r: seq<Character>)
    ensures |r| <= |s|
  {
    if s == [] then []
    else OfTeam(s[..|s| - 1], t) + (if s[|s| - 1].team == t then [s[|s| - 1]] else [])
  }

  /** The filter keeps exactly the members of team `t`; in particular it
      is empty exactly when nobody is on that team. */
  lemma {:induction false} OfTeamMembers(s: seq<Character>, t: Team)
    ensures forall c :: c in OfTeam(s, t) <==> c in s && c.team == t
    ensures OfTeam(s, t) == [] <==> forall c :: c in s ==> c.team != t
  {
    if s != [] {
      OfTeamMembers(s[..|s| - 1], t);
      assert s == s[..|s| - 1] + [s[|s| - 1]];
    }
  }

  /** Registering one character grows its own team's count by one and
      leaves the other team's unchanged. */
  lemma OfTeamAppend(s: seq<Character>, c: Character, t: Team)
    ensures OfTeam(s + [c], t) == OfTeam(s, t) + (if c.team == t then [c] else [])
  {
    assert (s + [c])[..|s + [c]| - 1] == s;
  }

  /** List.Remove: drops the first occurrence of `c`, if there is one. */
  function RemoveFirst(s: seq<Character>, c: Character): (r: seq<Character>)
    ensures multiset(r) == multiset(s) - multiset{c}
    ensures c in s ==> |r| == |s| - 1
    ensures c !in s ==> r == s
  {
    if s == [] then []
    else
      assert s == [s[0]] + s[1..];
      if s[0] == c then s[1..] else [s[0]] + RemoveFirst(s[1..], c)
  }

  /** The position of the first occurrence of `c`. */
  function FirstIndex(s: seq<Character>, c: Character): (i: nat)
    requires c in s
    ensures i < |s| && s[i] == c && c !in s[..i]
  {
    if s[0] == c then 0
    else
      assert s == [s[0]] + s[1..];
      var i := FirstIndex(s[1..], c);
      assert s[..i + 1] == [s[0]] + s[1..][..i];
      i + 1
  }

  /** The occurrence List.Remove drops is the first one, and the other
      characters keep their roster order. */
  lemma {:induction false} RemoveFirstKeepsOrder(s: seq<Character>, c: Character)
    requires c in s
    ensures RemoveFirst(s, c) == s[..FirstIndex(s, c)] + s[FirstIndex(s, c) + 1..]
  {
    if s[0] == c {
      assert FirstIndex(s, c) == 0 && RemoveFirst(s, c) == s[1..];
      assert s[..0] + s[1..] == s[1..];
    } else {
      var t := s[1..];
      assert s == [s[0]] + t;
      RemoveFirstKeepsOrder(t, c);
      var i := FirstIndex(t, c);
      assert FirstIndex(s, c) == i + 1;
      assert RemoveFirst(s, c) == [s[0]] + RemoveFirst(t, c);
      SpliceCons(s[0], t, i);
    }
  }

  /** Cutting position `i + 1` out of `[x] + t` is `x` followed by `t`
      with position `i` cut out. */
  lemma SpliceCons(x: Character, t: seq<Character>, i: nat)
    requires i < |t|
    ensures [x] + (t[..i] + t[i + 1..]) == ([x] + t)[..i + 1] + ([x] + t)[i + 2..]
  {
    assert ([x] + t)[..i + 1] == [x] + t[..i];
    assert ([x] + t)[i + 2..] == t[i + 1..];
  }

  /** List.Remove never adds a member to a team: an empty team stays empty. */
  lemma OfTeamRemoveFirst(s: seq<Character>, d: Character, t: Team)
    ensures OfTeam(s, t) == [] ==> OfTeam(RemoveFirst(s, d), t) == []
  {
    OfTeamMembers(s, t);
    OfTeamMembers(RemoveFirst(s, d), t);
    forall x | x in RemoveFirst(s, d)
      ensures x in s
    {
      assert x in multiset(RemoveFirst(s, d));
    }
  }

  /** The first position in roster order of a member of team `t` whose
      distance is the smallest: a stable OrderBy(distance) followed by
      ElementAt(0); None where ElementAt(0) would throw. */
  function ClosestIndex(s: seq<Character>, t: Team, dist: Character -> int): (r: Option<nat>)
    ensures r.None? <==> forall j :: 0 <= j < |s| ==> s[j].team != t
    ensures r.Some? ==> r.value < |s| && s[r.value].team == t
    ensures r.Some? ==> forall j :: 0 <= j < |s| && s[j].team == t ==> dist(s[r.value]) <= dist(s[j])
    ensures r.Some? ==> forall j :: 0 <= j < r.value && s[j].team == t ==> dist(s[r.value]) < dist(s[j])
  {
    if s == [] then None
    else
      var rest := ClosestIndex(s[1..], t, dist);
      if s[0].team != t then
        (if rest.None? then None else Some(rest.value + 1))
      else if rest.Some? && dist(s[rest.value + 1]) < dist(s[0]) then Some(rest.value + 1)
      else Some(0)
  }

  /** GetClosestCharacter<T>: the closest member of team `t`, None when
      the team is empty. */
  function GetClosestCharacter(s: seq<Character>, t: Team, dist: Character -> int): (r: Option<Character>)
    ensures r.None? <==> OfTeam(s, t) == []
    ensures r.Some? ==> r.value in OfTeam(s, t)
    ensures r.Some? ==> forall c :: c in OfTeam(s, t) ==> dist(r.value) <= dist(c)
  {
    OfTeamMembers(s, t);
    var i := ClosestIndex(s, t, dist);
    if i.None? then None
    else Some(s[i.value])
  }
}
