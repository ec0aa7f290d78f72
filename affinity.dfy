/** The affinity ("love") scores of CharacterManager: a dictionary from a
    pair of characters to an int, enumerated in insertion order (it is
    only ever added to), modelled as an association list. */
module Affinity {
  import opened Optional
  import opened Names
  import opened Roster

  /** One dictionary entry: the key Tuple(first, second) and its score. */
  datatype Entry = Entry(first: Character, second: Character, love: int)

  type LoveList = seq<Entry>

  /** The lookup predicate of IncreaseLove: both items of the key are one
      of `a`, `b`. */
  predicate Matches(e: Entry, a: Character, b: Character)
  {
    (e.first == a || e.first == b) && (e.second == a || e.second == b)
  }

  /** The two entries are keyed by the same unordered pair. */
  predicate SamePair(e: Entry, f: Entry)
  {
    (e.first == f.first && e.second == f.second) || (e.first == f.second && e.second == f.first)
  }

  /** No unordered pair has two entries. */
  predicate UniquePairs(love: LoveList)
  {
    forall i, j :: 0 <= i < j < |love| ==> !SamePair(love[i], love[j])
  }

  /** `_love.FirstOrDefault(Matches)`: the position of the first match. */
  function FindCouple(love: LoveList, a: Character, b: Character): (r: Option<nat>)
    ensures r.None? <==> forall i :: 0 <= i < |love| ==> !Matches(love[i], a, b)
    ensures r.Some? ==> r.value < |love| && Matches(love[r.value], a, b)
    ensures r.Some? ==> forall i :: 0 <= i < r.value ==> !Matches(love[i], a, b)
  {
    if love == [] then None
    else if Matches(love[0], a, b) then Some(0)
    else
      var rest := FindCouple(love[1..], a, b);
      if rest.None? then None else Some(rest.value + 1)
  }

  /** The score IncreaseLove(a, b, _) would add to, if any. */
  function Score(love: LoveList, a: Character, b: Character): Option<int>
  {
    match FindCouple(love, a, b)
    case None => None
    case Some(i) => Some(love[i].love)
  }

  /** IncreaseLove: add `amount` to the first matching entry, or append a
      new entry (a, b) worth `amount` when there is none. */
  function IncreaseLove(love: LoveList, a: Character, b: Character, amount: int): (r: LoveList)
    ensures FindCouple(love, a, b).None? ==> r == love + [Entry(a, b, amount)]
    ensures FindCouple(love, a, b).Some? ==> |r| == |love|
    ensures FindCouple(love, a, b).Some? ==>
      var i := FindCouple(love, a, b).value;
      r[i] == love[i].(love := love[i].love + amount) &&
      forall j :: 0 <= j < |love| && j != i ==> r[j] == love[j]
  {
    match FindCouple(love, a, b)
    case None => love + [Entry(a, b, amount)]
    case Some(i) => love[i := love[i].(love := love[i].love + amount)]
  }

  lemma FindCoupleSymmetric(love: LoveList, a: Character, b: Character)
    ensures FindCouple(love, a, b) == FindCouple(love, b, a)
  {
    var r, r' := FindCouple(love, a, b), FindCouple(love, b, a);
    assert forall i :: 0 <= i < |love| ==> (Matches(love[i], a, b) <==> Matches(love[i], b, a));
    if r.Some? && r'.Some? {
      assert !(r.value < r'.value) && !(r'.value < r.value);
    }
  }

  /** The score of a pair is the same whichever order it is asked in. */
  lemma ScoreSymmetric(love: LoveList, a: Character, b: Character)
    ensures Score(love, a, b) == Score(love, b, a)
  {
    FindCoupleSymmetric(love, a, b);
  }

  /** IncreaseLove creates the pair at `amount` or adds `amount` to it. */
  lemma IncreaseLoveScore(love: LoveList, a: Character, b: Character, amount: int)
    ensures Score(IncreaseLove(love, a, b, amount), a, b) ==
      match Score(love, a, b)
      case None => Some(amount)
      case Some(v) => Some(v + amount)
  {
    var r := IncreaseLove(love, a, b, amount);
    var f := FindCouple(love, a, b);
    if f.None? {
      assert Matches(r[|love|], a, b);
      assert FindCouple(r, a, b) == Some(|love|);
    } else {
      assert FindCouple(r, a, b) == f;
    }
  }

  /** Increasing (a, b) then (b, a) updates one entry: with no entry for
      the pair yet, (a, b, 5) then (b, a, 3) leaves one new entry worth 8. */
  lemma IncreaseLoveOrderIndependent(love: LoveList, a: Character, b: Character)
    requires Score(love, a, b) == None
    ensures var r := IncreaseLove(IncreaseLove(love, a, b, 5), b, a, 3);
      r == love + [Entry(a, b, 8)] && Score(r, a, b) == Some(8) && Score(r, b, a) == Some(8)
  {
    var r1 := IncreaseLove(love, a, b, 5);
    IncreaseLoveScore(love, a, b, 5);
    FindCoupleSymmetric(r1, a, b);
    assert FindCouple(r1, b, a) == Some(|love|);
    var r := IncreaseLove(r1, b, a, 3);
    assert r == love + [Entry(a, b, 8)];
    IncreaseLoveScore(r1, b, a, 3);
    ScoreSymmetric(r, a, b);
  }

  /** IncreaseLove never gives one unordered pair a second entry. */
  lemma IncreaseLoveKeepsUniquePairs(love: LoveList, a: Character, b: Character, amount: int)
    requires UniquePairs(love)
    ensures UniquePairs(IncreaseLove(love, a, b, amount))
  {
    var r := IncreaseLove(love, a, b, amount);
    if FindCouple(love, a, b).None? {
      forall i, j | 0 <= i < j < |r|
        ensures !SamePair(r[i], r[j])
      {
        if j == |love| {
          assert !Matches(love[i], a, b);
        }
      }
    } else {
      var k := FindCouple(love, a, b).value;
      forall i, j | 0 <= i < j < |r|
        ensures !SamePair(r[i], r[j])
      {
        assert SamePair(r[i], r[j]) ==> SamePair(love[i], love[j]);
      }
    }
  }

  /** The lookup also matches a self-pair entry (a, a) when asked for
      (a, b): the score goes to that entry, no (a, b) entry is created,
      and the key unlocked names a single character twice. */
  lemma IncreaseLoveSelfPairAbsorbs(a: Character, b: Character)
    requires a != b
    ensures IncreaseLove([Entry(a, a, 1)], a, b, 5) == [Entry(a, a, 6)]
    ensures Score([Entry(a, a, 6)], a, b) == Some(6)
    ensures UnlockKey(IncreaseLove([Entry(a, a, 1)], a, b, 5)) == Some(SupportKey(a.name, a.name))
  {
  }

  /** The position of the first entry holding the largest score: a stable
      OrderByDescending(Value) followed by FirstOrDefault. */
  function StrongestIndex(love: LoveList): (i: nat)
    requires love != []
    ensures i < |love|
    ensures forall j :: 0 <= j < |love| ==> love[j].love <= love[i].love
    ensures forall j :: 0 <= j < i ==> love[j].love < love[i].love
  {
    if |love| == 1 then 0
    else
      var k := StrongestIndex(love[..|love| - 1]);
      if love[|love| - 1].love > love[k].love then |love| - 1 else k
  }

  /** The key UnlockSupport saves: None for an empty dictionary, otherwise
      the support key of the strongest pair's names. */
  function UnlockKey(love: LoveList): (r: Option<Name>)
    ensures r.None? <==> love == []
  {
    if love == [] then None
    else
      var e := love[StrongestIndex(love)];
      Some(SupportKey(e.first.name, e.second.name))
  }

  /** A pair whose score beats every other pair's is the one unlocked, and
      its key is the same whichever order its names were stored in. */
  lemma UnlockKeyStrictMaximum(love: LoveList, k: nat)
    requires k < |love|
    requires forall j :: 0 <= j < |love| && j != k ==> love[j].love < love[k].love
    ensures UnlockKey(love) == Some(SupportKey(love[k].first.name, love[k].second.name))
    ensures UnlockKey(love) == Some(SupportKey(love[k].second.name, love[k].first.name))
  {
    SupportKeySymmetric(love[k].first.name, love[k].second.name);
  }

  /** On equal top scores the pair inserted first wins. */
  lemma UnlockKeyTieFirstInserted(love: LoveList, k: nat)
    requires k < |love|
    requires forall j :: 0 <= j < k ==> love[j].love < love[k].love
    requires forall j :: k < j < |love| ==> love[j].love <= love[k].love
    ensures UnlockKey(love) == Some(SupportKey(love[k].first.name, love[k].second.name))
  {
  }
}
