/**
 * One round of the fortune hut as a value: ten hidden reward slots, which of them are
 * revealed, the two costs, the collected counts, and the steps that move a round on
 * (`initialize_game`, the reveal step, and refresh, which is a new `initialize_game`).
 * The random choices the game makes are passed in as a `Draw`.
 */
module Round {
  import opened Rewards

  const SLOTS := 10
  const SAMPLE_SIZE := 9
  const INITIAL_REVEAL_COST := 1
  const INITIAL_REFRESH_COST := 15

  /**
   * The random choices behind one `initialize_game`: the positions `random.sample` picks
   * from the pooled catalog, and the swap partners `random.shuffle` draws
   * (for i = 9 down to 1 it swaps slot i with slot swaps[9 - i] <= i).
   */
  datatype Draw = Draw(picks: seq<nat>, swaps: seq<nat>)

  predicate ValidDraw(d: Draw, population: nat)
  {
    && |d.picks| == SAMPLE_SIZE
    && (forall k :: 0 <= k < |d.picks| ==> d.picks[k] < population)
    && (forall j, k :: 0 <= j < k < |d.picks| ==> d.picks[j] != d.picks[k])
    && |d.swaps| == SLOTS - 1
    && (forall k :: 0 <= k < |d.swaps| ==> d.swaps[k] <= SLOTS - 1 - k)
  }

  /** Fisher-Yates shuffle driven by the given swap partners, as `random.shuffle` runs it. */
  function Shuffle<T>(s: seq<T>, swaps: seq<nat>): (r: seq<T>)
    requires |swaps| + 1 == |s|
    requires forall k :: 0 <= k < |swaps| ==> swaps[k] <= |s| - 1 - k
    ensures |r| == |s|
    ensures multiset(r) == multiset(s)
    decreases |swaps|
  {
    if swaps == [] then s
    else
      var i := |s| - 1;
      var j := swaps[0];
      var t := s[i := s[j]][j := s[i]];
      assert multiset(t) == multiset(s);
      assert t == t[..i] + [t[i]];
      Shuffle(t[..i], swaps[1..]) + [t[i]]
  }

  /** The items `random.sample` returns for the given positions, in pick order. */
  function Sample(items: seq<RewardItem>, picks: seq<nat>): (r: seq<RewardItem>)
    requires forall k :: 0 <= k < |picks| ==> picks[k] < |items|
    ensures |r| == |picks|
    ensures forall x :: x in r ==> x in items
  {
    seq(|picks|, k requires 0 <= k < |picks| => items[picks[k]])
  }

  /** The game-state dictionary: one round plus the token balance and the running counts. */
  datatype State = State(
    currentRewards: seq<RewardItem>,
    revealedRewards: seq<Option<RewardItem>>,
    collectedRewards: map<string, int>,
    tokens: int,
    revealCost: int,
    refreshCost: int,
    progress: int,
    progressMilestones: seq<Milestone>,
    wishRewardFound: bool,
    wishReward: string)

  /** How many slots are revealed. */
  function RevealedCount(revealed: seq<Option<RewardItem>>): (n: nat)
    ensures n <= |revealed|
  {
    if revealed == [] then 0
    else (if revealed[0].Some? then 1 else 0) + RevealedCount(revealed[1..])
  }

  /** The total quantity the revealed slots hold under the given key. */
  function CollectedFrom(revealed: seq<Option<RewardItem>>, key: string): int
  {
    if revealed == [] then 0
    else (if revealed[0].Some? && Key(revealed[0].value) == key then revealed[0].value.quantity else 0)
         + CollectedFrom(revealed[1..], key)
  }

  /** Ten slots; a revealed entry is the slot's own reward. */
  ghost predicate SlotsShape(s: State)
  {
    && |s.currentRewards| == SLOTS
    && |s.revealedRewards| == SLOTS
    && (forall i :: 0 <= i < SLOTS ==>
          s.revealedRewards[i].None? || s.revealedRewards[i] == Some(s.currentRewards[i]))
  }

  /** The reveal cost and the progress count the reveals made. */
  ghost predicate CostsTrack(s: State)
  {
    && s.revealCost == INITIAL_REVEAL_COST + RevealedCount(s.revealedRewards)
    && s.progress == RevealedCount(s.revealedRewards)
  }

  /**
   * The wish flag records whether a wish-named slot is revealed and fixes the refresh cost;
   * some slot holds the wish reward.
   */
  ghost predicate WishTracked(s: State)
    requires SlotsShape(s)
  {
    && (s.wishRewardFound <==>
          exists i :: 0 <= i < SLOTS && s.revealedRewards[i].Some? && s.currentRewards[i].name == s.wishReward)
    && s.refreshCost == (if s.wishRewardFound then 0 else INITIAL_REFRESH_COST)
    && (exists i :: 0 <= i < SLOTS && s.currentRewards[i].name == s.wishReward)
  }

  /** Every slot's key is a counter, and every counter equals the quantity revealed under its key. */
  ghost predicate CountersTrack(s: State)
    requires SlotsShape(s)
  {
    && (forall i :: 0 <= i < SLOTS ==> Key(s.currentRewards[i]) in s.collectedRewards)
    && (forall k :: k in s.collectedRewards ==> s.collectedRewards[k] == CollectedFrom(s.revealedRewards, k))
  }

  /** What holds of every round the game builds and keeps through reveals. */
  ghost predicate RoundInvariant(s: State)
  {
    SlotsShape(s) && CostsTrack(s) && WishTracked(s) && CountersTrack(s)
  }

  /** A round as `initialize_game` returns it: nothing revealed, nothing collected. */
  ghost predicate FreshRound(s: State)
  {
    && RoundInvariant(s)
    && (forall i :: 0 <= i < SLOTS ==> s.revealedRewards[i].None?)
    && s.revealCost == INITIAL_REVEAL_COST
    && s.refreshCost == INITIAL_REFRESH_COST
    && s.progress == 0
    && !s.wishRewardFound
    && (forall k :: k in s.collectedRewards ==> s.collectedRewards[k] == 0)
  }

  lemma {:induction false} NothingRevealed(revealed: seq<Option<RewardItem>>, key: string)
    requires forall i :: 0 <= i < |revealed| ==> revealed[i].None?
    ensures RevealedCount(revealed) == 0 && CollectedFrom(revealed, key) == 0
  {
    if revealed != [] {
      NothingRevealed(revealed[1..], key);
    }
  }

  /** Revealing one hidden slot adds one to the count and its quantity to its key's total. */
  lemma {:induction false} RevealOneSlot(revealed: seq<Option<RewardItem>>, i: nat, x: RewardItem, key: string)
    requires i < |revealed| && revealed[i].None?
    ensures RevealedCount(revealed[i := Some(x)]) == RevealedCount(revealed) + 1
    ensures CollectedFrom(revealed[i := Some(x)], key) ==
            CollectedFrom(revealed, key) + (if Key(x) == key then x.quantity else 0)
  {
    if i == 0 {
      assert revealed[i := Some(x)][1..] == revealed[1..];
    } else {
      assert revealed[i := Some(x)][1..] == revealed[1..][i - 1 := Some(x)];
      RevealOneSlot(revealed[1..], i - 1, x, key);
    }
  }

  /** Every slot is revealed exactly when the count reaches the number of slots. */
  lemma {:induction false} AllRevealedIffFullCount(revealed: seq<Option<RewardItem>>)
    ensures (forall i :: 0 <= i < |revealed| ==> revealed[i].Some?) <==> RevealedCount(revealed) == |revealed|
  {
    if revealed != [] {
      AllRevealedIffFullCount(revealed[1..]);
      assert forall i :: 1 <= i < |revealed| ==> revealed[i] == revealed[1..][i - 1];
      if RevealedCount(revealed) == |revealed| {
        assert forall i :: 0 <= i < |revealed| ==> revealed[i].Some?;
      }
    }
  }

  /** Every item a new round can hold is keyed in the zeroed counters. */
  lemma DrawnKeysInCatalog(data: EventData, picks: seq<nat>, wishItem: RewardItem)
    requires forall k :: 0 <= k < |picks| ==> picks[k] < |Flatten(data.prizePools)|
    requires wishItem in data.wishRewards
    ensures forall x :: x in Sample(Flatten(data.prizePools), picks) + [wishItem] ==> Key(x) in AllKeys(data)
  {
    var items := Flatten(data.prizePools);
    forall x | x in Sample(items, picks) + [wishItem] ensures Key(x) in AllKeys(data) {
      assert x in items + data.wishRewards;
    }
  }

  /** Reordering the drawn items keeps the wish reward among them and every key known. */
  lemma ShuffledKeepsDrawn(data: EventData, wishReward: string, drawn: seq<RewardItem>, current: seq<RewardItem>)
    requires |current| == SLOTS && multiset(current) == multiset(drawn)
    requires exists x :: x in drawn && x.name == wishReward
    requires forall x :: x in drawn ==> Key(x) in AllKeys(data)
    ensures exists i :: 0 <= i < SLOTS && current[i].name == wishReward
    ensures forall i :: 0 <= i < SLOTS ==> Key(current[i]) in InitialCollected(data)
  {
    var x :| x in drawn && x.name == wishReward;
    assert x in multiset(current);
    var w :| 0 <= w < SLOTS && current[w] == x;
    forall i | 0 <= i < SLOTS ensures Key(current[i]) in InitialCollected(data) {
      assert current[i] in multiset(drawn);
    }
  }

  /** Ten slots holding the wish reward, with nothing revealed and zeroed counters, form a fresh round. */
  lemma NewRoundIsFresh(collected: map<string, int>, wishReward: string, tokens: int, current: seq<RewardItem>,
                        milestones: seq<Milestone>)
    requires |current| == SLOTS
    requires exists i :: 0 <= i < SLOTS && current[i].name == wishReward
    requires forall i :: 0 <= i < SLOTS ==> Key(current[i]) in collected
    requires forall k :: k in collected ==> collected[k] == 0
    ensures FreshRound(State(current, seq(SLOTS, _ => None), collected, tokens, INITIAL_REVEAL_COST,
                             INITIAL_REFRESH_COST, 0, milestones, false, wishReward))
  {
    var s := State(current, seq(SLOTS, _ => None), collected, tokens, INITIAL_REVEAL_COST,
                   INITIAL_REFRESH_COST, 0, milestones, false, wishReward);
    var revealed := s.revealedRewards;
    assert forall i :: 0 <= i < SLOTS ==> revealed[i].None?;
    assert SlotsShape(s);
    NothingRevealed(revealed, "");
    assert CostsTrack(s);
    assert WishTracked(s);
    forall k | k in s.collectedRewards ensures s.collectedRewards[k] == 0 == CollectedFrom(revealed, k) {
      NothingRevealed(revealed, k);
    }
    assert CountersTrack(s);
  }

  /** `initialize_game` with its random choices given as `draw`. */
  function InitializeGame(data: EventData, wishReward: string, tokens: int, draw: Draw): (s: State)
    requires FirstNamed(data.wishRewards, wishReward).Some?
    requires ValidDraw(draw, |Flatten(data.prizePools)|)
    ensures FreshRound(s)
    ensures s.tokens == tokens && s.wishReward == wishReward
    ensures s.progressMilestones == data.progressRewards
    ensures s.collectedRewards == InitialCollected(data)
    ensures multiset(s.currentRewards) ==
            multiset(Sample(Flatten(data.prizePools), draw.picks)) + multiset{FirstNamed(data.wishRewards, wishReward).value}
  {
    var wishItem := FirstNamed(data.wishRewards, wishReward).value;
    var drawn := Sample(Flatten(data.prizePools), draw.picks) + [wishItem];
    var current := Shuffle(drawn, draw.swaps);
    DrawnKeysInCatalog(data, draw.picks, wishItem);
    assert wishItem in drawn;
    ShuffledKeepsDrawn(data, wishReward, drawn, current);
    NewRoundIsFresh(InitialCollected(data), wishReward, tokens, current, data.progressRewards);
    State(current, seq(SLOTS, _ => None), InitialCollected(data), tokens, INITIAL_REVEAL_COST,
          INITIAL_REFRESH_COST, 0, data.progressRewards, false, wishReward)
  }

  /** `collected_rewards[f"{name} x{quantity}"] += quantity` for the revealed item. */
  function Credit(collected: map<string, int>, item: RewardItem): (m: map<string, int>)
    requires Key(item) in collected
    ensures m.Keys == collected.Keys
    ensures m[Key(item)] == collected[Key(item)] + item.quantity
    ensures forall k :: k in collected && k != Key(item) ==> m[k] == collected[k]
  {
    collected[Key(item) := collected[Key(item)] + item.quantity]
  }

  /**
   * The reveal step at slot `index`: record the slot's reward as revealed, pay the reveal
   * cost, raise it and the progress by one, credit the reward's quantity under its key, and
   * if the reward is the wish reward mark it found and make refreshing free.
   */
  function RevealStep(s: State, index: nat): (t: State)
    requires index < |s.currentRewards| && index < |s.revealedRewards|
    requires Key(s.currentRewards[index]) in s.collectedRewards
    ensures t.currentRewards == s.currentRewards && |t.revealedRewards| == |s.revealedRewards|
    ensures t.revealedRewards[index] == Some(s.currentRewards[index])
    ensures t.tokens == s.tokens - s.revealCost && t.revealCost == s.revealCost + 1
    ensures t.wishRewardFound <==> s.wishRewardFound || s.currentRewards[index].name == s.wishReward
    ensures t.collectedRewards.Keys == s.collectedRewards.Keys
  {
    var reward := s.currentRewards[index];
    var found := reward.name == s.wishReward;
    s.(revealedRewards := s.revealedRewards[index := Some(reward)],
       tokens := s.tokens - s.revealCost,
       revealCost := s.revealCost + 1,
       wishRewardFound := if found then true else s.wishRewardFound,
       refreshCost := if found then 0 else s.refreshCost,
       collectedRewards := Credit(s.collectedRewards, reward),
       progress := s.progress + 1)
  }

  lemma RevealKeepsShape(s: State, index: nat)
    requires SlotsShape(s) && index < SLOTS
    requires Key(s.currentRewards[index]) in s.collectedRewards
    ensures SlotsShape(RevealStep(s, index))
  {
  }

  lemma RevealKeepsCosts(s: State, index: nat)
    requires SlotsShape(s) && CostsTrack(s) && index < SLOTS && s.revealedRewards[index].None?
    requires Key(s.currentRewards[index]) in s.collectedRewards
    ensures CostsTrack(RevealStep(s, index))
    ensures RevealedCount(RevealStep(s, index).revealedRewards) == RevealedCount(s.revealedRewards) + 1
  {
    RevealOneSlot(s.revealedRewards, index, s.currentRewards[index], "");
  }

  lemma RevealKeepsWish(s: State, index: nat)
    requires SlotsShape(s) && WishTracked(s) && index < SLOTS && s.revealedRewards[index].None?
    requires Key(s.currentRewards[index]) in s.collectedRewards
    ensures SlotsShape(RevealStep(s, index)) && WishTracked(RevealStep(s, index))
  {
    var t := RevealStep(s, index);
    RevealKeepsShape(s, index);
    if t.wishRewardFound && !s.wishRewardFound {
      assert t.revealedRewards[index].Some? && t.currentRewards[index].name == t.wishReward;
    }
    if s.wishRewardFound {
      var i :| 0 <= i < SLOTS && s.revealedRewards[i].Some? && s.currentRewards[i].name == s.wishReward;
      assert t.revealedRewards[i].Some?;
    }
    var w :| 0 <= w < SLOTS && s.currentRewards[w].name == s.wishReward;
    assert t.currentRewards[w].name == t.wishReward;
  }

  lemma RevealKeepsCounters(s: State, index: nat)
    requires SlotsShape(s) && CountersTrack(s) && index < SLOTS && s.revealedRewards[index].None?
    ensures SlotsShape(RevealStep(s, index)) && CountersTrack(RevealStep(s, index))
  {
    var t := RevealStep(s, index);
    var reward := s.currentRewards[index];
    RevealKeepsShape(s, index);
    forall k | k in t.collectedRewards ensures t.collectedRewards[k] == CollectedFrom(t.revealedRewards, k) {
      RevealOneSlot(s.revealedRewards, index, reward, k);
    }
  }

  /**
   * Revealing a hidden slot keeps the round invariant: one more slot is revealed, so the
   * reveal cost and the progress still count the reveals, and the counters still equal the
   * quantities revealed under their keys. The tokens stay non-negative when the reveal was
   * affordable.
   */
  lemma RevealPreservesInvariant(s: State, index: nat)
    requires RoundInvariant(s)
    requires index < SLOTS && s.revealedRewards[index].None?
    ensures RoundInvariant(RevealStep(s, index))
    ensures RevealedCount(RevealStep(s, index).revealedRewards) == RevealedCount(s.revealedRewards) + 1
    ensures s.tokens >= s.revealCost ==> RevealStep(s, index).tokens >= 0
  {
    RevealKeepsShape(s, index);
    RevealKeepsCosts(s, index);
    RevealKeepsWish(s, index);
    RevealKeepsCounters(s, index);
  }

  /**
   * A reveal changes only the revealed slot and only the counter of the revealed reward's
   * identity: every other slot and every reward differing in name or quantity keeps its count.
   */
  lemma RevealTouchesOnlyItsSlot(s: State, index: nat, other: RewardItem)
    requires RoundInvariant(s)
    requires index < SLOTS && s.revealedRewards[index].None?
    requires Key(other) in s.collectedRewards
    requires other.name != s.currentRewards[index].name || other.quantity != s.currentRewards[index].quantity
    ensures forall i :: 0 <= i < SLOTS && i != index ==> RevealStep(s, index).revealedRewards[i] == s.revealedRewards[i]
    ensures RevealStep(s, index).collectedRewards[Key(other)] == s.collectedRewards[Key(other)]
    ensures RevealStep(s, index).currentRewards == s.currentRewards
  {
    if Key(other) == Key(s.currentRewards[index]) {
      KeyInjective(other, s.currentRewards[index]);
    }
  }

  /** Refresh: a new `initialize_game` paid for with the refresh cost. */
  function Refresh(s: State, data: EventData, draw: Draw): (t: State)
    requires FirstNamed(data.wishRewards, s.wishReward).Some?
    requires ValidDraw(draw, |Flatten(data.prizePools)|)
    ensures FreshRound(t) && t.wishReward == s.wishReward
    ensures t.tokens == s.tokens - s.refreshCost
    ensures s.tokens >= s.refreshCost ==> t.tokens >= 0
    ensures t.progress == 0 && t.collectedRewards == InitialCollected(data)
  {
    InitializeGame(data, s.wishReward, s.tokens - s.refreshCost, draw)
  }

  /**
   * Within a round every slot is revealed exactly when the reveal cost has reached 11, and
   * by then the wish reward has been revealed, so refreshing is free.
   */
  lemma ExhaustedRound(s: State)
    requires RoundInvariant(s)
    ensures INITIAL_REVEAL_COST <= s.revealCost <= SLOTS + 1
    ensures (forall i :: 0 <= i < SLOTS ==> s.revealedRewards[i].Some?) <==> s.revealCost == SLOTS + 1
    ensures s.revealCost == SLOTS + 1 ==> s.wishRewardFound && s.refreshCost == 0
  {
    AllRevealedIffFullCount(s.revealedRewards);
    if s.revealCost == SLOTS + 1 {
      var w :| 0 <= w < SLOTS && s.currentRewards[w].name == s.wishReward;
      assert s.revealedRewards[w].Some?;
    }
  }
}
