/**
 * The game-state dictionary as an object, the reveal step that updates it in place, the
 * interactive reveal and refresh commands, and the batch loop `simulate_game`.
 */
module Engine {
  import opened Rewards
  import opened Round

  /** The dictionary `initialize_game` builds; the reveal step updates its entries in place. */
  class Game {
    var currentRewards: seq<RewardItem>
    var revealedRewards: seq<Option<RewardItem>>
    var collectedRewards: map<string, int>
    var tokens: int
    var revealCost: int
    var refreshCost: int
    var progress: int
    var progressMilestones: seq<Milestone>
    var wishRewardFound: bool
    var wishReward: string

    /** The dictionary's current contents as a value. */
    function Snapshot(): State
      reads this
    {
      State(currentRewards, revealedRewards, collectedRewards, tokens, revealCost, refreshCost,
            progress, progressMilestones, wishRewardFound, wishReward)
    }

    ghost predicate Valid()
      reads this
    {
      RoundInvariant(Snapshot())
    }

    /** `initialize_game(data, wish_reward, tokens)`, its random choices given as `draw`. */
    constructor (data: EventData, wishReward: string, tokens: int, draw: Draw)
      requires FirstNamed(data.wishRewards, wishReward).Some?
      requires ValidDraw(draw, |Flatten(data.prizePools)|)
      ensures Snapshot() == InitializeGame(data, wishReward, tokens, draw)
      ensures Valid() && FreshRound(Snapshot())
    {
      var s := InitializeGame(data, wishReward, tokens, draw);
      currentRewards := s.currentRewards;
      revealedRewards := s.revealedRewards;
      collectedRewards := s.collectedRewards;
      this.tokens := s.tokens;
      revealCost := s.revealCost;
      refreshCost := s.refreshCost;
      progress := s.progress;
      progressMilestones := s.progressMilestones;
      wishRewardFound := s.wishRewardFound;
      this.wishReward := s.wishReward;
    }

    /**
     * The reveal step at slot `index`, updating the dictionary's entries in place, as both the
     * batch loop and the interactive command run it. Callers pick a hidden slot of a valid
     * game; `RevealPreservesInvariant` then gives `Valid()` afterwards.
     */
    method Reveal(index: nat)
      requires index < |currentRewards| && index < |revealedRewards|
      requires revealedRewards[index].None?
      requires Key(currentRewards[index]) in collectedRewards
      modifies this
      ensures Snapshot() == RevealStep(old(Snapshot()), index)
    {
      ghost var t := RevealStep(Snapshot(), index);
      var reward := currentRewards[index];
      revealedRewards := revealedRewards[index := Some(reward)];
      tokens := tokens - revealCost;
      revealCost := revealCost + 1;
      if reward.name == wishReward {
        wishRewardFound := true;
        refreshCost := 0;
      }
      collectedRewards := Credit(collectedRewards, reward);
      progress := progress + 1;
      assert revealedRewards == t.revealedRewards && collectedRewards == t.collectedRewards;
      assert wishRewardFound == t.wishRewardFound && refreshCost == t.refreshCost;
    }
  }

  /**
   * The rejection loop that picks the slot to reveal: it draws `random.randint(0, 9)` until
   * the drawn slot is hidden. `draws` is a finite prefix of that random stream; `found` is
   * false when no draw in the prefix hit a hidden slot (the loop would still be drawing).
   */
  method PickUnrevealed(revealed: seq<Option<RewardItem>>, draws: seq<nat>) returns (found: bool, index: nat)
    requires |revealed| == SLOTS
    requires forall k :: 0 <= k < |draws| ==> draws[k] < SLOTS
    ensures found <==> exists k :: 0 <= k < |draws| && revealed[draws[k]].None?
    ensures found ==> index < SLOTS && revealed[index].None?
    ensures found ==> exists k :: 0 <= k < |draws| && draws[k] == index &&
                                  forall j :: 0 <= j < k ==> revealed[draws[j]].Some?
  {
    found, index := false, 0;
    var k := 0;
    while k < |draws|
      invariant 0 <= k <= |draws|
      invariant forall j :: 0 <= j < k ==> revealed[draws[j]].Some?
    {
      if revealed[draws[k]].None? {
        found, index := true, draws[k];
        return;
      }
      k := k + 1;
    }
  }

  datatype RevealOutcome = NotEnoughTokens | RoundExhausted | StillDrawing | Revealed(index: nat)

  /**
   * The interactive `'r'` command as written: it checks only that the reveal cost is
   * affordable, then runs the rejection loop. `StillDrawing` means the loop has not exited
   * within the given draws.
   */
  method InteractiveRevealAsWritten(g: Game, draws: seq<nat>) returns (outcome: RevealOutcome)
    requires g.Valid()
    requires forall k :: 0 <= k < |draws| ==> draws[k] < SLOTS
    modifies g
    ensures g.Valid()
    ensures !outcome.RoundExhausted?
    ensures outcome.NotEnoughTokens? <==> old(g.tokens) < old(g.revealCost)
    ensures outcome.StillDrawing? <==>
              old(g.tokens) >= old(g.revealCost) &&
              forall k :: 0 <= k < |draws| ==> old(g.revealedRewards)[draws[k]].Some?
    ensures outcome.Revealed? ==>
              outcome.index < SLOTS && old(g.revealedRewards)[outcome.index].None? &&
              g.Snapshot() == RevealStep(old(g.Snapshot()), outcome.index)
    ensures !outcome.Revealed? ==> g.Snapshot() == old(g.Snapshot())
  {
    if g.tokens < g.revealCost {
      return NotEnoughTokens;
    }
    var found, index := PickUnrevealed(g.revealedRewards, draws);
    if !found {
      return StillDrawing;
    }
    RevealPreservesInvariant(g.Snapshot(), index);
    g.Reveal(index);
    return Revealed(index);
  }

  /**
   * Once all ten slots are revealed (reveal cost 11) no draw of the rejection loop is ever
   * accepted, so the interactive `'r'` command with at least 11 tokens never returns.
   */
  lemma EleventhRevealNeverPicks(s: State, draws: seq<nat>)
    requires RoundInvariant(s) && s.revealCost == SLOTS + 1
    requires forall k :: 0 <= k < |draws| ==> draws[k] < SLOTS
    ensures forall k :: 0 <= k < |draws| ==> s.revealedRewards[draws[k]].Some?
  {
    ExhaustedRound(s);
  }

  /**
   * The interactive `'r'` command with the missing exhaustion check added: a round whose ten
   * slots are all revealed answers `RoundExhausted` instead of drawing forever. `draws` must
   * reach a hidden slot whenever one exists, as the random stream eventually does.
   */
  method InteractiveReveal(g: Game, draws: seq<nat>) returns (outcome: RevealOutcome)
    requires g.Valid()
    requires forall k :: 0 <= k < |draws| ==> draws[k] < SLOTS
    requires (exists i :: 0 <= i < SLOTS && g.revealedRewards[i].None?) ==>
             exists k :: 0 <= k < |draws| && g.revealedRewards[draws[k]].None?
    modifies g
    ensures g.Valid()
    ensures !outcome.StillDrawing?
    ensures outcome.NotEnoughTokens? <==> old(g.tokens) < old(g.revealCost)
    ensures outcome.RoundExhausted? <==> old(g.tokens) >= old(g.revealCost) == SLOTS + 1
    ensures outcome.Revealed? ==>
              outcome.index < SLOTS && old(g.revealedRewards)[outcome.index].None? &&
              g.Snapshot() == RevealStep(old(g.Snapshot()), outcome.index)
    ensures !outcome.Revealed? ==> g.Snapshot() == old(g.Snapshot())
  {
    ExhaustedRound(g.Snapshot());
    if g.tokens < g.revealCost {
      return NotEnoughTokens;
    }
    if forall i | 0 <= i < SLOTS :: g.revealedRewards[i].Some? {
      return RoundExhausted;
    }
    var found, index := PickUnrevealed(g.revealedRewards, draws);
    RevealPreservesInvariant(g.Snapshot(), index);
    g.Reveal(index);
    return Revealed(index);
  }

  /**
   * The interactive `'f'` command: refuse when the refresh cost is not affordable, otherwise
   * rebind the game to a new round paid for with the refresh cost.
   */
  method InteractiveRefresh(g: Game, data: EventData, draw: Draw) returns (next: Game, ok: bool)
    requires FirstNamed(data.wishRewards, g.wishReward).Some?
    requires ValidDraw(draw, |Flatten(data.prizePools)|)
    ensures ok <==> g.tokens >= g.refreshCost
    ensures !ok ==> next == g
    ensures ok ==> next.Valid() && next.Snapshot() == Refresh(g.Snapshot(), data, draw)
  {
    if g.tokens < g.refreshCost {
      return g, false;
    }
    next := NextRound(g, data, draw);
    ok := true;
  }

  /** One entry of `SIMULATIONS`. */
  datatype SimStrategy = SimStrategy(name: string, maxCostToReveal: int, targetItems: seq<string>)

  const SIMULATIONS: seq<SimStrategy> := [
    SimStrategy("Strategy 1: Refresh on finding wish reward or refresh cost >= 6", 6,
                ["Fire Crystal", "Charm Design", "100 Gems"]),
    SimStrategy("Strategy 2: Refresh on finding wish reward or refresh cost >= 7", 7,
                ["Fire Crystal", "Charm Design", "100 Gems"])
  ]

  /** Whether slot `i` is revealed and holds one of the named rewards. */
  predicate RevealedNamed(revealed: seq<Option<RewardItem>>, names: seq<string>, i: int)
  {
    0 <= i < |revealed| && revealed[i].Some? && revealed[i].value.name in names
  }

  /**
   * `any(reward and reward['name'] in names for reward in revealed)`, scanning the slots in
   * order: true exactly when some revealed slot holds one of the named rewards.
   */
  function AnyRevealedNamed(revealed: seq<Option<RewardItem>>, names: seq<string>): (b: bool)
    ensures b <==> exists i :: RevealedNamed(revealed, names, i)
  {
    if revealed == [] then false
    else if revealed[0].Some? && revealed[0].value.name in names then
      assert RevealedNamed(revealed, names, 0);
      true
    else
      var b := AnyRevealedNamed(revealed[1..], names);
      assert forall i :: 1 <= i < |revealed| ==>
        (RevealedNamed(revealed, names, i) <==> RevealedNamed(revealed[1..], names, i - 1));
      assert b ==> RevealedNamed(revealed, names, 1 + (var j :| RevealedNamed(revealed[1..], names, j); j));
      b
  }

  /**
   * `game_state = initialize_game(data, game_state['wish_reward'], game_state['tokens'] -
   * game_state['refresh_cost'])`: the refresh inside `simulate_game`, which binds a new game
   * and leaves the old one as it was.
   */
  method NextRound(state: Game, data: EventData, draw: Draw) returns (next: Game)
    requires FirstNamed(data.wishRewards, state.wishReward).Some?
    requires ValidDraw(draw, |Flatten(data.prizePools)|)
    ensures FreshRound(next.Snapshot()) && next.wishReward == state.wishReward
    ensures next.tokens == state.tokens - state.refreshCost
    ensures next.Snapshot() == Refresh(state.Snapshot(), data, draw)
  {
    next := new Game(data, state.wishReward, state.tokens - state.refreshCost, draw);
  }

  /**
   * `simulate_game` on the fresh round its caller builds. A refresh rebinds only the local
   * `state` to a new game, so `g` is never changed (the method has no `modifies` clause);
   * `last` and `refreshes` expose the local state the loop ends with and how many refreshes
   * it paid for. Every round the loop sees is fresh, so each iteration refreshes for 15
   * tokens or stops: the reveal block is unreachable.
   */
  method SimulateGame(g: Game, strategy: SimStrategy, data: EventData, draws: seq<Draw>)
    returns (last: Game, refreshes: nat)
    requires FreshRound(g.Snapshot())
    requires FirstNamed(data.wishRewards, g.wishReward).Some?
    requires forall k :: 0 <= k < |draws| ==> ValidDraw(draws[k], |Flatten(data.prizePools)|)
    requires g.tokens < INITIAL_REFRESH_COST * (|draws| + 1)
    ensures FreshRound(last.Snapshot()) && last.wishReward == g.wishReward
    ensures refreshes == if g.tokens >= 0 then g.tokens / INITIAL_REFRESH_COST else 0
    ensures last.tokens == g.tokens - INITIAL_REFRESH_COST * refreshes
    ensures g.tokens >= 0 ==> 0 <= last.tokens < INITIAL_REFRESH_COST
  {
    var state := g;
    refreshes := 0;
    while state.tokens >= state.revealCost || state.tokens >= state.refreshCost
      invariant FreshRound(state.Snapshot()) && state.wishReward == g.wishReward
      invariant state.tokens == g.tokens - INITIAL_REFRESH_COST * refreshes
      invariant refreshes > 0 ==> state.tokens >= 0
      decreases state.tokens
    {
      if state.wishRewardFound || state.refreshCost >= strategy.maxCostToReveal {
        if state.tokens < state.refreshCost {
          break;
        }
        state := NextRound(state, data, draws[refreshes]);
        refreshes := refreshes + 1;
        continue;
      }
      if state.tokens < state.revealCost {
        break;
      }
      if !AnyRevealedNamed(state.revealedRewards, strategy.targetItems) {
        if state.tokens < state.refreshCost {
          break;
        }
        state := NextRound(state, data, draws[refreshes]);
        refreshes := refreshes + 1;
        continue;
      }
      // A fresh round has no revealed slot, so the tests above always refresh or break, and
      // this reveal block is never reached.
      assert false;
    }
    last := state;
  }

  /**
   * One round of `run_simulation` for simulation `simNumber` (1-based, as the caller numbers
   * `SIMULATIONS`): build the game, run `simulate_game` on it, and read the
   * collected counts back from the caller's dictionary, which the loop never touched.
   */
  method RunRound(data: EventData, wishReward: string, tokens: int, simNumber: nat,
                  first: Draw, draws: seq<Draw>) returns (collected: map<string, int>)
    requires 1 <= simNumber <= |SIMULATIONS|
    requires FirstNamed(data.wishRewards, wishReward).Some?
    requires ValidDraw(first, |Flatten(data.prizePools)|)
    requires forall k :: 0 <= k < |draws| ==> ValidDraw(draws[k], |Flatten(data.prizePools)|)
    requires tokens < INITIAL_REFRESH_COST * (|draws| + 1)
    ensures collected == InitialCollected(data)
    ensures forall k :: k in collected ==> collected[k] == 0
  {
    var strategy := SIMULATIONS[simNumber - 1];
    var g := new Game(data, wishReward, tokens, first);
    var last, refreshes := SimulateGame(g, strategy, data, draws);
    collected := g.collectedRewards;
  }
}
