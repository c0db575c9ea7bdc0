/**
 * The seven decision policies of `strategies.py`: each reads the token balance and the round
 * (`event_state['round_state']`) and answers `"end"`, `"refresh"` or `"reveal"`. A reward is
 * "unrevealed" when it is not equal, as a value, to any entry of the revealed list.
 * The configuration argument `data` is accepted and never read.
 */
module Strategies {
  import opened Rewards
  import opened Round

  datatype Action = End | Refresh | Reveal

  /** `event_state['round_state']`: the fields of a round the policies read. */
  datatype RoundView = RoundView(
    currentRewards: seq<RewardItem>,
    revealedRewards: seq<Option<RewardItem>>,
    revealCost: int,
    refreshCost: int,
    wishRewardFound: bool)

  datatype EventState = EventState(tokens: int, roundState: RoundView)

  /** The guard every policy tests first: neither a reveal nor a refresh is affordable. */
  predicate CannotAct(e: EventState)
  {
    e.tokens < e.roundState.revealCost && e.tokens < e.roundState.refreshCost
  }

  /** Slot `i` holds a reward equal to no revealed entry (`reward not in revealed_rewards`). */
  predicate UnrevealedNamed(current: seq<RewardItem>, revealed: seq<Option<RewardItem>>, names: seq<string>, i: int)
  {
    0 <= i < |current| && Some(current[i]) !in revealed && current[i].name in names
  }

  /** `any(reward['name'] in names for reward in current if reward not in revealed)`. */
  function AnyUnrevealedNamed(current: seq<RewardItem>, revealed: seq<Option<RewardItem>>, names: seq<string>): (b: bool)
    ensures b <==> exists i :: UnrevealedNamed(current, revealed, names, i)
  {
    if current == [] then false
    else if Some(current[0]) !in revealed && current[0].name in names then
      assert UnrevealedNamed(current, revealed, names, 0);
      true
    else
      var b := AnyUnrevealedNamed(current[1..], revealed, names);
      assert forall i :: 1 <= i < |current| ==>
        (UnrevealedNamed(current, revealed, names, i) <==> UnrevealedNamed(current[1..], revealed, names, i - 1));
      assert b ==> UnrevealedNamed(current, revealed, names, 1 + (var j :| UnrevealedNamed(current[1..], revealed, names, j); j));
      b
  }

  const ESSENCE_STONES: seq<string> := ["Essence Stones"]
  const MULTIPLIER: seq<string> := ["Multiplier"]
  const WANTED: seq<string> := ["Fire Crystals", "Charm Designs", "Enhancement XP Component", "Essence Stones"]

  /** Strategy 1, "Refresh on finding wish reward or reveal cost > 4", as written: both must hold. */
  function Strategy1(e: EventState, data: EventData): (a: Action)
    ensures a.End? <==> CannotAct(e)
    ensures a.Refresh? <==> !CannotAct(e) && e.roundState.wishRewardFound && e.roundState.revealCost > 4
  {
    if CannotAct(e) then End
    else if e.roundState.wishRewardFound && e.roundState.revealCost > 4 then Refresh
    else Reveal
  }

  /** Strategy 2: refresh once the reveal cost is above 5 and no Essence Stones are left. */
  function Strategy2(e: EventState, data: EventData): (a: Action)
    ensures a.End? <==> CannotAct(e)
    ensures a.Refresh? <==>
              !CannotAct(e) && e.roundState.revealCost > 5 &&
              forall i :: !UnrevealedNamed(e.roundState.currentRewards, e.roundState.revealedRewards, ESSENCE_STONES, i)
  {
    var r := e.roundState;
    if CannotAct(e) then End
    else if r.revealCost > 5 && !AnyUnrevealedNamed(r.currentRewards, r.revealedRewards, ESSENCE_STONES) then Refresh
    else Reveal
  }

  /** Strategy 3: reveal always. It never refreshes, and it reveals even when only a refresh is affordable. */
  function Strategy3(e: EventState, data: EventData): (a: Action)
    ensures a.End? <==> CannotAct(e)
    ensures !a.Refresh?
    ensures e.roundState.refreshCost <= e.tokens < e.roundState.revealCost ==> a.Reveal?
  {
    if CannotAct(e) then End else Reveal
  }

  /** Strategy 4: reveal while a Multiplier is still unrevealed, otherwise refresh. */
  function Strategy4(e: EventState, data: EventData): (a: Action)
    ensures a.End? <==> CannotAct(e)
    ensures a.Reveal? <==>
              !CannotAct(e) &&
              exists i :: UnrevealedNamed(e.roundState.currentRewards, e.roundState.revealedRewards, MULTIPLIER, i)
  {
    var r := e.roundState;
    if CannotAct(e) then End
    else if AnyUnrevealedNamed(r.currentRewards, r.revealedRewards, MULTIPLIER) then Reveal
    else Refresh
  }

  /** Strategy 5: refresh when none of the four wanted rewards is still unrevealed. */
  function Strategy5(e: EventState, data: EventData): (a: Action)
    ensures a.End? <==> CannotAct(e)
    ensures a.Refresh? <==>
              !CannotAct(e) &&
              forall i :: !UnrevealedNamed(e.roundState.currentRewards, e.roundState.revealedRewards, WANTED, i)
  {
    var r := e.roundState;
    if CannotAct(e) then End
    else if !AnyUnrevealedNamed(r.currentRewards, r.revealedRewards, WANTED) then Refresh
    else Reveal
  }

  /** Strategy 6: reveal while the reveal cost is below 10, otherwise refresh. */
  function Strategy6(e: EventState, data: EventData): (a: Action)
    ensures a.End? <==> CannotAct(e)
    ensures a.Reveal? <==> !CannotAct(e) && e.roundState.revealCost < 10
  {
    if CannotAct(e) then End
    else if e.roundState.revealCost < 10 then Reveal
    else Refresh
  }

  /** Strategy 7, "Refresh on finding wish reward or reveal cost > 3", as written: both must hold. */
  function Strategy7(e: EventState, data: EventData): (a: Action)
    ensures a.End? <==> CannotAct(e)
    ensures a.Refresh? <==> !CannotAct(e) && e.roundState.wishRewardFound && e.roundState.revealCost > 3
  {
    if CannotAct(e) then End
    else if e.roundState.wishRewardFound && e.roundState.revealCost > 3 then Refresh
    else Reveal
  }

  /** `strategies[n - 1]['logic'](event_state, data)`. */
  function Decide(n: nat, e: EventState, data: EventData): (a: Action)
    requires 1 <= n <= 7
  {
    match n
    case 1 => Strategy1(e, data)
    case 2 => Strategy2(e, data)
    case 3 => Strategy3(e, data)
    case 4 => Strategy4(e, data)
    case 5 => Strategy5(e, data)
    case 6 => Strategy6(e, data)
    case _ => Strategy7(e, data)
  }

  /** The event state a game's round presents to a policy. */
  function View(s: State): EventState
  {
    EventState(s.tokens, RoundView(s.currentRewards, s.revealedRewards, s.revealCost, s.refreshCost, s.wishRewardFound))
  }

  /**
   * Every policy ends exactly when neither action is affordable, and otherwise answers
   * refresh or reveal.
   */
  lemma EndExactlyWhenBroke(n: nat, e: EventState, data: EventData)
    requires 1 <= n <= 7
    ensures Decide(n, e, data).End? <==> CannotAct(e)
    ensures !CannotAct(e) ==> Decide(n, e, data).Refresh? || Decide(n, e, data).Reveal?
  {
  }

  /**
   * In a round the game built, a reward that is unrevealed as a value sits in a hidden slot:
   * a revealed slot holds its own reward, which is then in the revealed list.
   */
  lemma UnrevealedValueIsHidden(s: State, names: seq<string>, i: int)
    requires RoundInvariant(s)
    requires UnrevealedNamed(s.currentRewards, s.revealedRewards, names, i)
    ensures s.revealedRewards[i].None?
  {
    assert s.revealedRewards[i] in s.revealedRewards;
  }

  /**
   * In a round the game built, every policy except strategy 3 asks to reveal only while a
   * slot is still hidden, so the reveal loop it would trigger terminates.
   */
  lemma RevealOnlyWhileSlotHidden(n: nat, s: State, data: EventData)
    requires 1 <= n <= 7 && n != 3
    requires RoundInvariant(s)
    requires Decide(n, View(s), data).Reveal?
    ensures exists i :: 0 <= i < SLOTS && s.revealedRewards[i].None?
  {
    ExhaustedRound(s);
    var e := View(s);
    if n == 4 {
      var i :| UnrevealedNamed(s.currentRewards, s.revealedRewards, MULTIPLIER, i);
      UnrevealedValueIsHidden(s, MULTIPLIER, i);
    } else if n == 5 {
      var i :| UnrevealedNamed(s.currentRewards, s.revealedRewards, WANTED, i);
      UnrevealedValueIsHidden(s, WANTED, i);
    } else if n == 2 && s.revealCost > 5 {
      var i :| UnrevealedNamed(s.currentRewards, s.revealedRewards, ESSENCE_STONES, i);
      UnrevealedValueIsHidden(s, ESSENCE_STONES, i);
    }
  }

  /**
   * Strategy 3 asks to reveal in a round whose ten slots are all revealed whenever the
   * balance is not negative: the refresh cost is 0 there, so it does not end.
   */
  lemma Strategy3RevealsExhaustedRound(s: State, data: EventData)
    requires RoundInvariant(s)
    requires forall i :: 0 <= i < SLOTS ==> s.revealedRewards[i].Some?
    requires s.tokens >= 0
    ensures Strategy3(View(s), data) == Reveal
  {
    ExhaustedRound(s);
  }

  /**
   * Unrevealed is decided by value: when two slots hold equal rewards and one is revealed,
   * the other, still hidden, no longer counts, and strategy 4 refreshes away a round that
   * still hides a Multiplier.
   */
  lemma DuplicateHidesMultiplier(data: EventData)
    ensures var m := RewardItem("Multiplier", 1, 0.5);
            var r := RoundView([m, m], [Some(m), None], 2, 15, false);
            r.revealedRewards[1].None? && r.currentRewards[1].name == "Multiplier" &&
            Strategy4(EventState(20, r), data) == Refresh
  {
    var m := RewardItem("Multiplier", 1, 0.5);
    var r := RoundView([m, m], [Some(m), None], 2, 15, false);
    assert !UnrevealedNamed(r.currentRewards, r.revealedRewards, MULTIPLIER, 0);
    assert !UnrevealedNamed(r.currentRewards, r.revealedRewards, MULTIPLIER, 1);
  }

  /**
   * Strategy 1 as written keeps revealing at any reveal cost while the wish reward is not
   * found, although its name promises a refresh once the reveal cost passes 4.
   */
  lemma Strategy1IgnoresCostAlone(data: EventData)
    ensures Strategy1(EventState(100, RoundView([], [], 9, 15, false)), data) == Reveal
  {
  }

  /** Strategy 7 as written, likewise past reveal cost 3. */
  lemma Strategy7IgnoresCostAlone(data: EventData)
    ensures Strategy7(EventState(100, RoundView([], [], 9, 15, false)), data) == Reveal
  {
  }

  /** Strategy 1 as its name describes it: refresh on finding the wish reward or on reveal cost above 4. */
  function Strategy1Intended(e: EventState, data: EventData): (a: Action)
    ensures a.End? <==> CannotAct(e)
    ensures a.Refresh? <==> !CannotAct(e) && (e.roundState.wishRewardFound || e.roundState.revealCost > 4)
  {
    if CannotAct(e) then End
    else if e.roundState.wishRewardFound || e.roundState.revealCost > 4 then Refresh
    else Reveal
  }

  /** Strategy 7 as its name describes it: refresh on finding the wish reward or on reveal cost above 3. */
  function Strategy7Intended(e: EventState, data: EventData): (a: Action)
    ensures a.End? <==> CannotAct(e)
    ensures a.Refresh? <==> !CannotAct(e) && (e.roundState.wishRewardFound || e.roundState.revealCost > 3)
  {
    if CannotAct(e) then End
    else if e.roundState.wishRewardFound || e.roundState.revealCost > 3 then Refresh
    else Reveal
  }

  /**
   * The intended strategies 1 and 7 reveal at most four (resp. three) slots per round and
   * stop revealing in a round once its wish reward is found.
   */
  lemma IntendedRevealBounds(s: State, data: EventData)
    requires RoundInvariant(s)
    ensures Strategy1Intended(View(s), data).Reveal? ==> RevealedCount(s.revealedRewards) <= 3 && !s.wishRewardFound
    ensures Strategy7Intended(View(s), data).Reveal? ==> RevealedCount(s.revealedRewards) <= 2 && !s.wishRewardFound
  {
  }
}
