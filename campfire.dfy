/** CampfireManager: choosing two characters at the campfire to play one
    of their support stories.

    The pure half states each operation as a transition of a `Camp`
    value; the class `CampfireManager` keeps the same data in fields and
    its methods are proved to perform exactly those transitions. The flags
    the source sets on the characters (light, interaction hint, active)
    are sets of characters held by the manager. The save data is reduced
    to `level` (GetCurrentSupportLevel) and `canPlay` (CanPlaySupport),
    and the visual-novel player to `isPlayingStory` and the recorded
    calls. */
module Campfire {
  import opened Optional
  import opened Names

  /** A CharacterCamp: its identity and its name. */
  datatype Camper = Camper(id: nat, name: Name)

  /** A Couple asset: two characters and their stories, one per level. */
  datatype Couple = Couple(a: Camper, b: Camper, stories: seq<nat>)

  /** Calls into the dialogue player and the save system. */
  datatype CampCall =
    | NextDialogue          // VNManager.DisplayNextDialogue()
    | ShowStory(story: nat) // VNManager.ShowStory(story, callback)
    | PlaySupport(key: Name) // SaveData.PlaySupport(key)
    | SaveProgress          // PersistencyManager.Save()

  /** The manager's state: the two selection slots, the per-character
      flags, the calls made and the key captured by the callback handed
      to ShowStory, while that callback is pending. */
  datatype Camp = Camp(
    current: Option<Camper>,   // _current
    hovered: Option<Camper>,   // _hovered
    lit: set<Camper>,          // ToggleLight(true)
    hinted: set<Camper>,       // ToggleInteraction(true)
    hidden: set<Camper>,       // gameObject.SetActive(false)
    calls: seq<CampCall>,
    pending: Option<Name>)

  /** The exceptions OnClick can end with: `_couples.First` finding no
      couple, and `Stories[level]` past the end. */
  datatype Outcome = Handled | NoMatchingCouple | NoStoryAtLevel

  /** GetSupportKey on two characters. */
  function KeyOf(a: Camper, b: Camper): (r: Name)
  {
    SupportKey(a.name, b.name)
  }

  /** GetSupportKey(a, b) == GetSupportKey(b, a). */
  lemma KeyOfSymmetric(a: Camper, b: Camper)
    ensures KeyOf(a, b) == KeyOf(b, a)
  {
    SupportKeySymmetric(a.name, b.name);
  }

  // ---------------------------------------------------------------
  // UpdateSupportDisplay

  /** ToggleInteraction(on) on `x`. */
  function Toggle(flags: set<Camper>, x: Camper, on: bool): (r: set<Camper>)
    ensures x in r <==> on
    ensures forall y :: y != x ==> (y in r <==> y in flags)
  {
    if on then flags + {x} else flags - {x}
  }

  /** The support of a couple can be played at its current level. */
  predicate Playable(c: Couple, level: Name -> nat, canPlay: (Name, nat) -> bool)
  {
    var key := KeyOf(c.a, c.b);
    canPlay(key, level(key))
  }

  /** One iteration of UpdateSupportDisplay: A's hint, then B's. */
  function ApplyCouple(flags: set<Camper>, c: Couple, target: Camper,
                       level: Name -> nat, canPlay: (Name, nat) -> bool): set<Camper>
  {
    if c.a != target && c.b != target then Toggle(Toggle(flags, c.a, false), c.b, false)
    else if Playable(c, level, canPlay) then
      (if c.a == target then Toggle(Toggle(flags, c.a, false), c.b, true)
       else Toggle(Toggle(flags, c.a, true), c.b, false))
    else Toggle(Toggle(flags, c.a, false), c.b, false)
  }

  /** UpdateSupportDisplay over `couples`, in order. */
  function DisplayAfter(flags: set<Camper>, couples: seq<Couple>, target: Camper,
                        level: Name -> nat, canPlay: (Name, nat) -> bool): set<Camper>
  {
    if couples == [] then flags
    else ApplyCouple(DisplayAfter(flags, couples[..|couples| - 1], target, level, canPlay),
                     couples[|couples| - 1], target, level, canPlay)
  }

  /** A couple without the target switches both hints off. */
  lemma CoupleWithoutTargetClears(flags: set<Camper>, c: Couple, target: Camper,
                                  level: Name -> nat, canPlay: (Name, nat) -> bool)
    requires c.a != target && c.b != target
    ensures var r := ApplyCouple(flags, c, target, level, canPlay);
      c.a !in r && c.b !in r
  {
  }

  /** A couple with the target whose support is playable hints the
      partner and not the target; one that is not playable hints
      neither. Every other character keeps its hint. */
  lemma CoupleWithTargetHintsPartner(flags: set<Camper>, c: Couple, target: Camper,
                                     level: Name -> nat, canPlay: (Name, nat) -> bool)
    requires (c.a == target) != (c.b == target)
    ensures var r := ApplyCouple(flags, c, target, level, canPlay);
      var partner := if c.a == target then c.b else c.a;
      && (partner in r <==> Playable(c, level, canPlay))
      && target !in r
      && forall y :: y != c.a && y != c.b ==> (y in r <==> y in flags)
  {
  }

  /** A character that belongs to none of the couples keeps its hint. */
  lemma {:induction false} DisplayKeepsOutsiders(flags: set<Camper>, couples: seq<Couple>, target: Camper,
                                                 level: Name -> nat, canPlay: (Name, nat) -> bool, x: Camper)
    requires forall i :: 0 <= i < |couples| ==> couples[i].a != x && couples[i].b != x
    ensures x in DisplayAfter(flags, couples, target, level, canPlay) <==> x in flags
  {
    if couples != [] {
      DisplayKeepsOutsiders(flags, couples[..|couples| - 1], target, level, canPlay, x);
    }
  }

  /** Later couples overwrite earlier ones: a character's final hint is the
      one its last couple gives it, whatever came before. */
  lemma {:induction false} DisplayLastCoupleWins(flags: set<Camper>, couples: seq<Couple>, k: nat,
                                                 target: Camper, level: Name -> nat,
                                                 canPlay: (Name, nat) -> bool, x: Camper)
    requires k < |couples| && (couples[k].a == x || couples[k].b == x)
    requires forall i :: k < i < |couples| ==> couples[i].a != x && couples[i].b != x
    ensures x in DisplayAfter(flags, couples, target, level, canPlay) <==>
            x in ApplyCouple(DisplayAfter(flags, couples[..k], target, level, canPlay),
                             couples[k], target, level, canPlay)
  {
    if k < |couples| - 1 {
      var front := couples[..|couples| - 1];
      assert front[..k] == couples[..k];
      DisplayLastCoupleWins(flags, front, k, target, level, canPlay, x);
    } else {
      assert couples[..|couples| - 1] == couples[..k];
    }
  }

  /** The hint of a character is decided by its last couple alone: with
      the target in that couple it is on exactly for the partner of a
      playable support; otherwise it is off. */
  lemma DisplayDecidedByLastCouple(flags: set<Camper>, couples: seq<Couple>, k: nat,
                                   target: Camper, level: Name -> nat,
                                   canPlay: (Name, nat) -> bool, x: Camper)
    requires k < |couples| && (couples[k].a == x || couples[k].b == x)
    requires couples[k].a != couples[k].b
    requires forall i :: k < i < |couples| ==> couples[i].a != x && couples[i].b != x
    ensures x in DisplayAfter(flags, couples, target, level, canPlay) <==>
      (x != target && (couples[k].a == target || couples[k].b == target) &&
       Playable(couples[k], level, canPlay))
  {
    DisplayLastCoupleWins(flags, couples, k, target, level, canPlay, x);
  }

  // ---------------------------------------------------------------
  // OnClick

  /** The couple made of `x` and `y`, in either order. */
  predicate IsCoupleOf(c: Couple, x: Camper, y: Camper)
  {
    (c.a == x && c.b == y) || (c.a == y && c.b == x)
  }

  /** `_couples.First(...)`: the position of the first couple of `x` and
      `y`; None where First would throw. */
  function FindCouple(couples: seq<Couple>, x: Camper, y: Camper): (r: Option<nat>)
    ensures r.None? <==> forall i :: 0 <= i < |couples| ==> !IsCoupleOf(couples[i], x, y)
    ensures r.Some? ==> r.value < |couples| && IsCoupleOf(couples[r.value], x, y)
    ensures r.Some? ==> forall i :: 0 <= i < r.value ==> !IsCoupleOf(couples[i], x, y)
  {
    if couples == [] then None
    else if IsCoupleOf(couples[0], x, y) then Some(0)
    else
      var rest := FindCouple(couples[1..], x, y);
      if rest.None? then None else Some(rest.value + 1)
  }

  /** The lookup does not care which of the two was selected first. */
  lemma FindCoupleSymmetric(couples: seq<Couple>, x: Camper, y: Camper)
    ensures FindCouple(couples, x, y) == FindCouple(couples, y, x)
  {
    var r, r' := FindCouple(couples, x, y), FindCouple(couples, y, x);
    assert forall i :: 0 <= i < |couples| ==> (IsCoupleOf(couples[i], x, y) <==> IsCoupleOf(couples[i], y, x));
    if r.Some? && r'.Some? {
      assert !(r.value < r'.value) && !(r'.value < r.value);
    }
  }

  /** The characters of `cs`, as a set. */
  function Members(cs: seq<Camper>): set<Camper>
  {
    set x | x in cs
  }

  /** The characters of `cs` other than the selected pair. */
  function Bystanders(cs: seq<Camper>, x: Camper, y: Camper): set<Camper>
  {
    set c | c in cs && c != x && c != y
  }

  /** The result of a click: the new state and how it ended. */
  datatype Clicked = Clicked(state: Camp, outcome: Outcome)

  /** A click on a second character whose support with the selected one
      can be played: switch every light and hint off, hide everyone else,
      then show the couple's story for the current level. */
  function PlayOf(s: Camp, couples: seq<Couple>, characters: seq<Camper>,
                  cur: Camper, hov: Camper, key: Name, lv: nat): Clicked
  {
    var s1 := s.(lit := s.lit - Members(characters), hinted := s.hinted - Members(characters),
                 hidden := s.hidden + Bystanders(characters, cur, hov));
    match FindCouple(couples, cur, hov)
    case None => Clicked(s1, NoMatchingCouple)
    case Some(i) =>
      if lv >= |couples[i].stories| then Clicked(s1, NoStoryAtLevel)
      else Clicked(s1.(calls := s1.calls + [ShowStory(couples[i].stories[lv])],
                       pending := Some(key), hovered := None), Handled)
  }

  /** OnClick. */
  function ClickOf(s: Camp, couples: seq<Couple>, characters: seq<Camper>, performed: bool,
                   isPlayingStory: bool, level: Name -> nat, canPlay: (Name, nat) -> bool): Clicked
  {
    if !performed then Clicked(s, Handled)
    else if isPlayingStory then Clicked(s.(calls := s.calls + [NextDialogue]), Handled)
    else if s.hovered.None? then
      Clicked(s.(lit := if s.current.Some? then s.lit - {s.current.value} else s.lit,
                 current := None, hovered := None), Handled)
    else if s.current.None? then
      Clicked(s.(current := s.hovered, hovered := None), Handled)
    else
      var hov, cur := s.hovered.value, s.current.value;
      var key := KeyOf(hov, cur);
      var lv := level(key);
      if canPlay(key, lv) then PlayOf(s, couples, characters, cur, hov, key, lv)
      else
        Clicked(s.(lit := s.lit - {cur}, current := Some(hov),
                   hinted := DisplayAfter(s.hinted, couples, hov, level, canPlay),
                   hovered := None), Handled)
  }

  /** The callback handed to ShowStory, run when the story ends: show
      every character again, drop the selection, record the support as
      played and save. Without a pending callback nothing happens. */
  function StoryFinishedOf(s: Camp, characters: seq<Camper>): Camp
  {
    match s.pending
    case None => s
    case Some(key) =>
      s.(hidden := s.hidden - Members(characters), current := None,
         calls := s.calls + [PlaySupport(key), SaveProgress], pending := None)
  }

  /** A click that is not performed changes nothing; while a story plays
      a click only advances the dialogue. */
  lemma ClickDuringStoryOnlyAdvances(s: Camp, couples: seq<Couple>, characters: seq<Camper>,
                                     performed: bool, level: Name -> nat, canPlay: (Name, nat) -> bool)
    ensures var r := ClickOf(s, couples, characters, performed, true, level, canPlay);
      && r.outcome == Handled
      && r.state.current == s.current && r.state.hovered == s.hovered
      && r.state == s.(calls := s.calls + (if performed then [NextDialogue] else []))
  {
  }

  /** Clicking empty space drops the selection and switches off its light. */
  lemma ClickOnNothingClears(s: Camp, couples: seq<Couple>, characters: seq<Camper>,
                             level: Name -> nat, canPlay: (Name, nat) -> bool)
    requires s.hovered.None?
    ensures var r := ClickOf(s, couples, characters, true, false, level, canPlay);
      && r.outcome == Handled && r.state.current == None && r.state.hovered == None
      && (s.current.Some? ==> s.current.value !in r.state.lit)
      && r.state.hinted == s.hinted && r.state.hidden == s.hidden && r.state.calls == s.calls
  {
  }

  /** Every performed click outside a story that does not throw ends with
      nothing hovered. */
  lemma ClickEndsUnhovered(s: Camp, couples: seq<Couple>, characters: seq<Camper>,
                           level: Name -> nat, canPlay: (Name, nat) -> bool)
    ensures var r := ClickOf(s, couples, characters, true, false, level, canPlay);
      r.outcome == Handled ==> r.state.hovered == None
  {
  }

  /** With nothing selected, a click on a character selects it. */
  lemma ClickSelects(s: Camp, couples: seq<Couple>, characters: seq<Camper>,
                     level: Name -> nat, canPlay: (Name, nat) -> bool)
    requires s.hovered.Some? && s.current.None?
    ensures var r := ClickOf(s, couples, characters, true, false, level, canPlay);
      r == Clicked(s.(current := s.hovered, hovered := None), Handled)
  {
  }

  /** With a selection, a click on a character whose support with it
      cannot be played moves the selection there, switches the old
      selection's light off and recomputes the hints for the new one. */
  lemma ClickMovesSelection(s: Camp, couples: seq<Couple>, characters: seq<Camper>,
                            level: Name -> nat, canPlay: (Name, nat) -> bool)
    requires s.hovered.Some? && s.current.Some?
    requires var key := KeyOf(s.hovered.value, s.current.value); !canPlay(key, level(key))
    ensures var r := ClickOf(s, couples, characters, true, false, level, canPlay);
      && r.outcome == Handled && r.state.current == s.hovered && r.state.hovered == None
      && s.current.value !in r.state.lit
      && r.state.hinted == DisplayAfter(s.hinted, couples, s.hovered.value, level, canPlay)
      && r.state.calls == s.calls && r.state.pending == s.pending
  {
  }

  /** A click on a playable pair: every light and hint goes off, every
      other character is hidden, and the story shown is the one for the
      current level of the first couple made of the two characters in
      either order; the callback keeps the key; the selection stays until
      the story ends. */
  lemma ClickPlaysStory(s: Camp, couples: seq<Couple>, characters: seq<Camper>,
                        level: Name -> nat, canPlay: (Name, nat) -> bool, i: nat)
    requires s.hovered.Some? && s.current.Some?
    requires var key := KeyOf(s.hovered.value, s.current.value); canPlay(key, level(key))
    requires FindCouple(couples, s.hovered.value, s.current.value) == Some(i)
    requires level(KeyOf(s.hovered.value, s.current.value)) < |couples[i].stories|
    ensures var r := ClickOf(s, couples, characters, true, false, level, canPlay);
      var key := KeyOf(s.hovered.value, s.current.value);
      && r.outcome == Handled
      && r.state.calls == s.calls + [ShowStory(couples[i].stories[level(key)])]
      && r.state.pending == Some(key) && key == KeyOf(s.current.value, s.hovered.value)
      && r.state.current == s.current && r.state.hovered == None
      && (forall c :: c in characters ==> c !in r.state.lit && c !in r.state.hinted)
      && (forall c :: c in characters ==>
            (c in r.state.hidden <==> c in s.hidden || (c != s.current.value && c != s.hovered.value)))
  {
    KeyOfSymmetric(s.hovered.value, s.current.value);
    FindCoupleSymmetric(couples, s.hovered.value, s.current.value);
  }

  /** When a playable pair has no couple asset, or no story at its level,
      the click throws after the characters were already hidden: the
      selection slots and the calls are as before. */
  lemma ClickPlayableErrors(s: Camp, couples: seq<Couple>, characters: seq<Camper>,
                            level: Name -> nat, canPlay: (Name, nat) -> bool)
    requires s.hovered.Some? && s.current.Some?
    requires var key := KeyOf(s.hovered.value, s.current.value); canPlay(key, level(key))
    ensures var r := ClickOf(s, couples, characters, true, false, level, canPlay);
      var f := FindCouple(couples, s.hovered.value, s.current.value);
      && (r.outcome == NoMatchingCouple <==> f.None?)
      && (r.outcome == NoStoryAtLevel <==>
            f.Some? && level(KeyOf(s.hovered.value, s.current.value)) >= |couples[f.value].stories|)
      && (r.outcome != Handled ==>
            r.state.current == s.current && r.state.hovered == s.hovered &&
            r.state.calls == s.calls && r.state.pending == s.pending)
  {
  }

  /** The end of the story shows every character again, drops the
      selection, and records the pair's support as played, then saves. */
  lemma StoryFinishedPlaysSupport(s: Camp, characters: seq<Camper>)
    requires s.pending.Some?
    ensures var r := StoryFinishedOf(s, characters);
      && r.current == None && r.pending == None
      && (forall c :: c in characters ==> c !in r.hidden)
      && r.calls == s.calls + [PlaySupport(s.pending.value), SaveProgress]
  {
  }

  /** From the selection of `cur` and a click on `hov` whose support can
      be played to the end of the story: PlaySupport is recorded with the
      key of the two names, whichever was selected first, and nothing is
      selected any more. */
  lemma PlayedSupportKey(s: Camp, couples: seq<Couple>, characters: seq<Camper>,
                         level: Name -> nat, canPlay: (Name, nat) -> bool)
    requires s.hovered.Some? && s.current.Some?
    requires var key := KeyOf(s.hovered.value, s.current.value); canPlay(key, level(key))
    requires ClickOf(s, couples, characters, true, false, level, canPlay).outcome == Handled
    ensures var r := StoryFinishedOf(ClickOf(s, couples, characters, true, false, level, canPlay).state,
                                     characters);
      && r.current == None
      && r.calls[|r.calls| - 2] == PlaySupport(KeyOf(s.current.value, s.hovered.value))
      && r.calls[|r.calls| - 2] == PlaySupport(KeyOf(s.hovered.value, s.current.value))
  {
    KeyOfSymmetric(s.hovered.value, s.current.value);
  }

  // ---------------------------------------------------------------
  // Update, reduced to the hover slot

  /** Update: `hit` is the character under the mouse, if any. Outside a
      story, the light of a hovered, unselected character goes off (and
      with no selection every hint with it); then the character under the
      mouse becomes hovered and lit and, with no selection, gets the hints
      of its supports. */
  function UpdateOf(s: Camp, couples: seq<Couple>, characters: seq<Camper>, hit: Option<Camper>,
                    isPlayingStory: bool, level: Name -> nat, canPlay: (Name, nat) -> bool): Camp
  {
    if isPlayingStory then s
    else
      var s1 := if s.hovered.Some? && s.hovered != s.current then
                  s.(lit := s.lit - {s.hovered.value},
                     hinted := if s.current.None? then s.hinted - Members(characters) else s.hinted)
                else s;
      match hit
      case None => s1.(hovered := None)
      case Some(h) =>
        s1.(hovered := hit, lit := s1.lit + {h},
            hinted := if s1.current.None? then DisplayAfter(s1.hinted, couples, h, level, canPlay)
                      else s1.hinted)
  }

  /** Update never touches the selection, the hidden characters or the
      calls; it leaves the character under the mouse hovered and lit. */
  lemma UpdateKeepsSelection(s: Camp, couples: seq<Couple>, characters: seq<Camper>, hit: Option<Camper>,
                             level: Name -> nat, canPlay: (Name, nat) -> bool)
    ensures var r := UpdateOf(s, couples, characters, hit, false, level, canPlay);
      && r.current == s.current && r.hidden == s.hidden && r.calls == s.calls
      && r.hovered == hit
      && (hit.Some? ==> hit.value in r.lit)
  {
  }

  // ---------------------------------------------------------------
  // The component

  /** `flags` without the members of `cs`: one flag switched off per
      iteration. */
  method SwitchOffEach(flags0: set<Camper>, cs: seq<Camper>) returns (flags: set<Camper>)
    ensures flags == flags0 - Members(cs)
  {
    flags := flags0;
    var k := 0;
    while k < |cs|
      invariant 0 <= k <= |cs|
      invariant flags == flags0 - Members(cs[..k])
    {
      assert cs[..k + 1] == cs[..k] + [cs[k]];
      flags := flags - {cs[k]};
      k := k + 1;
    }
    assert cs[..k] == cs;
  }

  /** The hiding loop of OnClick: lights and hints off for everyone, and
      everyone but the pair deactivated. */
  method HideForStory(lit0: set<Camper>, hinted0: set<Camper>, hidden0: set<Camper>,
                      cs: seq<Camper>, cur: Camper, hov: Camper)
    returns (lit: set<Camper>, hinted: set<Camper>, hidden: set<Camper>)
    ensures lit == lit0 - Members(cs) && hinted == hinted0 - Members(cs)
    ensures hidden == hidden0 + Bystanders(cs, cur, hov)
  {
    lit, hinted, hidden := lit0, hinted0, hidden0;
    var k := 0;
    while k < |cs|
      invariant 0 <= k <= |cs|
      invariant lit == lit0 - Members(cs[..k]) && hinted == hinted0 - Members(cs[..k])
      invariant hidden == hidden0 + Bystanders(cs[..k], cur, hov)
    {
      assert cs[..k + 1] == cs[..k] + [cs[k]];
      var c := cs[k];
      lit, hinted := lit - {c}, hinted - {c};
      if c != cur && c != hov {
        hidden := hidden + {c};
      }
      k := k + 1;
    }
    assert cs[..k] == cs;
  }

  /** The loop of UpdateSupportDisplay. */
  method DisplayLoop(flags0: set<Camper>, couples: seq<Couple>, target: Camper,
                     level: Name -> nat, canPlay: (Name, nat) -> bool) returns (flags: set<Camper>)
    ensures flags == DisplayAfter(flags0, couples, target, level, canPlay)
  {
    flags := flags0;
    var k := 0;
    while k < |couples|
      invariant 0 <= k <= |couples|
      invariant flags == DisplayAfter(flags0, couples[..k], target, level, canPlay)
    {
      assert couples[..k + 1][..k] == couples[..k];
      var c := couples[k];
      if c.a != target && c.b != target {
        flags := Toggle(Toggle(flags, c.a, false), c.b, false);
      } else {
        var key := KeyOf(c.a, c.b);
        var lv := level(key);
        if canPlay(key, lv) {
          if c.a == target {
            flags := Toggle(Toggle(flags, c.a, false), c.b, true);
          } else {
            flags := Toggle(Toggle(flags, c.a, true), c.b, false);
          }
        } else {
          flags := Toggle(Toggle(flags, c.a, false), c.b, false);
        }
      }
      k := k + 1;
    }
    assert couples[..k] == couples;
  }

  class CampfireManager {
    const couples: seq<Couple>       // _couples
    const characters: seq<Camper>    // _characters
    var current: Option<Camper>
    var hovered: Option<Camper>
    var lit: set<Camper>
    var hinted: set<Camper>
    var hidden: set<Camper>
    var calls: seq<CampCall>
    var pending: Option<Name>

    function State(): Camp
      reads this
    {
      Camp(current, hovered, lit, hinted, hidden, calls, pending)
    }

    constructor (couples: seq<Couple>, characters: seq<Camper>)
      ensures this.couples == couples && this.characters == characters
      ensures State() == Camp(None, None, {}, {}, {}, [], None)
    {
      this.couples, this.characters := couples, characters;
      current, hovered, lit, hinted, hidden := None, None, {}, {}, {};
      calls, pending := [], None;
    }

    method UpdateSupportDisplay(target: Camper, level: Name -> nat, canPlay: (Name, nat) -> bool)
      modifies this`hinted
      ensures hinted == DisplayAfter(old(hinted), couples, target, level, canPlay)
    {
      hinted := DisplayLoop(hinted, couples, target, level, canPlay);
    }

    method Update(hit: Option<Camper>, isPlayingStory: bool,
                  level: Name -> nat, canPlay: (Name, nat) -> bool)
      modifies this`hovered, this`lit, this`hinted
      ensures State() == UpdateOf(old(State()), couples, characters, hit, isPlayingStory, level, canPlay)
    {
      if isPlayingStory {
        return;
      }
      if hovered.Some? && hovered != current {
        lit := lit - {hovered.value};
        if current.None? {
          hinted := SwitchOffEach(hinted, characters);
        }
      }
      if hit.Some? {
        hovered := hit;
        lit := lit + {hit.value};
        if current.None? {
          UpdateSupportDisplay(hit.value, level, canPlay);
        }
      } else {
        hovered := None;
      }
    }

    method OnClick(performed: bool, isPlayingStory: bool,
                   level: Name -> nat, canPlay: (Name, nat) -> bool) returns (outcome: Outcome)
      modifies this`current, this`hovered, this`lit, this`hinted, this`hidden, this`calls, this`pending
      ensures Clicked(State(), outcome) ==
        ClickOf(old(State()), couples, characters, performed, isPlayingStory, level, canPlay)
    {
      outcome := Handled;
      if !performed {
        return;
      }
      if isPlayingStory {
        calls := calls + [NextDialogue];
        return;
      }
      if hovered.Some? {
        if current.Some? {
          var hov, cur := hovered.value, current.value;
          var key := KeyOf(hov, cur);
          var lv := level(key);
          if canPlay(key, lv) {
            lit, hinted, hidden := HideForStory(lit, hinted, hidden, characters, cur, hov);
            var i := FindCouple(couples, cur, hov);
            if i.None? {
              return NoMatchingCouple;
            }
            if lv >= |couples[i.value].stories| {
              return NoStoryAtLevel;
            }
            calls := calls + [ShowStory(couples[i.value].stories[lv])];
            pending := Some(key);
          } else {
            lit := lit - {cur};
            current := hovered;
            UpdateSupportDisplay(hov, level, canPlay);
          }
        } else {
          current := hovered;
        }
      } else {
        if current.Some? {
          lit := lit - {current.value};
        }
        current := None;
      }
      hovered := None;
    }

    /** The ShowStory callback, invoked by the dialogue player. */
    method StoryFinished()
      modifies this`hidden, this`current, this`calls, this`pending
      ensures State() == StoryFinishedOf(old(State()), characters)
    {
      if pending.None? {
        return;
      }
      hidden := SwitchOffEach(hidden, characters);
      current := None;
      calls := calls + [PlaySupport(pending.value), SaveProgress];
      pending := None;
    }
  }
}
