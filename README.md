# Mia's Fortune Hut, modelled in Dafny

This project models the reward-round game of Mia's Fortune Hut.

A round has ten hidden reward slots:
- nine rewards are drawn without replacement from the prize pools;
- the tenth is the player's chosen wish reward;
- the ten are then shuffled.

Each reveal uncovers one hidden slot:
- it charges the current reveal cost, which then rises by one;
- it raises the progress counter;
- it credits the reward's quantity under the key `"{name} x{quantity}"`;
- if the reward is the wish reward, it marks the wish found and makes refreshing free.

A refresh pays the refresh cost (15, or 0 once the wish is found) and builds a new round.

The game state is one dictionary, updated in place. Here it is the class `Engine.Game`, whose fields mirror that dictionary. `Round.State` is the same state as a value, so that functions and lemmas can speak about it. The model also covers:
- the batch loop `simulate_game`, as written;
- the interactive reveal and refresh commands;
- the weighted sampler `weighted_random_choice`;
- the table builder `generate_table`;
- the seven decision policies of `strategies.py`.

The game's random choices become parameters:
- `Round.Draw` holds the 9 positions `random.sample` picks and the swap partners `random.shuffle` draws;
- a sequence of slot draws stands for the `random.randint(0, 9)` rejection loop;
- the sampler's uniform draw `r` is a parameter of `Sampler.WeightedRandomChoice`; `Sampler.ChoiceAlwaysFound` takes it as `total * u` with `0 <= u <= 1`.

`Round.RoundInvariant` states what holds of every round the game builds. The reveal step preserves it. It ties these facts to the revealed slots:
- the reveal cost and the progress;
- the wish flag and the refresh cost;
- every collected counter, which equals the quantity revealed under its key.

Behaviour of the code worth knowing before reading the model:
- **A refresh resets the collected counts and the progress**, because it is a fresh `initialize_game` (mia-fortune.py:108, 117, 236). Neither carries over to the next round.
- **`simulate_game` rebinds only its local variable on refresh.** The caller's dictionary is never changed, so `run_simulation` reads back the initial zero counts (`Engine.RunRound`).
- **`simulate_game` never reaches its reveal block.** Every round it sees is fresh, and a fresh round has no revealed target item. The loop therefore refreshes for 15 tokens or stops (`Engine.SimulateGame`).
- **`simulate_game` does not consult the strategies of `strategies.py`.** It uses its own two entries of `SIMULATIONS`.

## Model

| member | source | states |
|---|---|---|
| `Rewards.Flatten` | mia-fortune.py:16 | The pooled catalog holds exactly the items of the pools: each pool item is in it, and each of its items comes from some pool. |
| `Rewards.FirstNamed` | mia-fortune.py:15 | `None` exactly when no wish reward has the name. Otherwise it returns an item with that name that sits at an index before which no item has the name (the first match). |
| `Rewards.Key` | mia-fortune.py:18-19 | The key `f"{name} x{quantity}"` is the name, then `" x"`, then at least one character of the quantity. |
| `Rewards.KeyParts` | mia-fortune.py:134 | A key splits at its last `x` into the reward's name and the decimal digits of its quantity. |
| `Rewards.KeyInjective` | mia-fortune.py:18-19 | Two items with equal collected-reward keys agree in name and quantity, so each reward identity has its own counter. |
| `Rewards.AllKeys` | mia-fortune.py:18-19 | The counter keys include the key of every item of every pool and of every wish reward, and every key is the key of one of those items. |
| `Rewards.InitialCollected` | mia-fortune.py:18-19 | The new `collected_rewards` has exactly those keys, each mapped to 0. |
| `Round.Sample` | mia-fortune.py:16 | `random.sample` at the given positions returns one item per position, each taken from the catalog. |
| `Round.Shuffle` | mia-fortune.py:17 | The Fisher-Yates shuffle returns a permutation of the drawn slots: same length, same multiset. |
| `Round.InitializeGame` | mia-fortune.py:13-31 | The new state is a fresh round. That means ten slots, all hidden, reveal cost 1, refresh cost 15, progress 0, wish not found and every counter 0. The tokens and the wish name are the arguments, and the counters are keyed by every pool and wish item. The slots are, as a multiset, the 9 sampled catalog items plus the first wish item with the chosen name. |
| `Round.Credit` | mia-fortune.py:134 | Crediting a reward adds its quantity to its own key's counter and leaves the key set and every other counter unchanged. |
| `Round.RevealStep` | mia-fortune.py:125-135 | The reveal step keeps the slots, records slot `index` as revealed with its own reward, charges the reveal cost and raises it by one, marks the wish found exactly when it was found already or this reward is the wish, and keeps the counter keys. |
| `Round.RevealOneSlot` | mia-fortune.py:126-134 | Revealing a hidden slot adds one to the revealed count and adds the reward's quantity to exactly its own key's revealed total. |
| `Round.AllRevealedIffFullCount` | mia-fortune.py:122 | All slots are revealed exactly when the revealed count equals the number of slots. |
| `Round.RevealPreservesInvariant` | mia-fortune.py:125-135 | A reveal at a hidden slot keeps the round invariant. The revealed count rises by one. An affordable reveal leaves the tokens non-negative. |
| `Round.RevealTouchesOnlyItsSlot` | mia-fortune.py:126-134 | A reveal leaves every other slot, the slot contents, and the counter of every other reward identity unchanged. |
| `Round.Refresh` | mia-fortune.py:105-108 | A refresh yields a fresh round with the same wish and `tokens - refresh_cost` tokens, non-negative when affordable. Progress and counters are back to 0. |
| `Round.ExhaustedRound` | mia-fortune.py:120-123 | Within a round the reveal cost lies between 1 and 11. All ten slots are revealed exactly when it is 11, and then the wish is found and refreshing costs 0. |
| `Round.DrawnKeysInCatalog` | mia-fortune.py:16-19 | Every sampled item and the wish item has its key among the zeroed counters. |
| `Round.ShuffledKeepsDrawn` | mia-fortune.py:16-17 | After the shuffle the wish item is still in some slot, and every slot's key is a counter. |
| `Round.NewRoundIsFresh` | mia-fortune.py:20-31 | The dictionary literal `initialize_game` returns satisfies the fresh-round invariant. |
| `Engine.Game.constructor` | mia-fortune.py:13-31 | The new game object holds exactly the state `initialize_game` builds, which is a fresh, valid round. |
| `Engine.Game.Reveal` | mia-fortune.py:125-135 | The in-place updates of the reveal step leave the object in the state the reveal step defines. |
| `Engine.PickUnrevealed` | mia-fortune.py:120-123 | The rejection loop returns a slot exactly when some draw hits a hidden slot. The slot it returns is hidden, and it is the first hidden slot drawn. |
| `Engine.InteractiveRevealAsWritten` | mia-fortune.py:209-229 | The `'r'` command as written answers "not enough tokens" exactly when tokens < reveal cost. It is still drawing exactly when it can pay and every draw hits a revealed slot. Otherwise it performs the reveal step on a hidden slot. The game stays valid. |
| `Engine.EleventhRevealNeverPicks` | mia-fortune.py:214-217 | At reveal cost 11 every draw of the rejection loop hits a revealed slot, so the loop never exits. |
| `Engine.InteractiveReveal` | mia-fortune.py:209-229 | The `'r'` command with an exhaustion check. It reports an exhausted round exactly when it can pay and the reveal cost is 11. It never keeps drawing, and otherwise it behaves as written. |
| `Engine.InteractiveRefresh` | mia-fortune.py:231-236 | The `'f'` command succeeds exactly when tokens >= refresh cost. On failure the game is unchanged. On success the new game is valid and equals `Refresh` of the old one. |
| `Engine.NextRound` | mia-fortune.py:105-108 | The refresh inside `simulate_game` binds a new fresh game with the same wish and `tokens - refresh_cost` tokens, equal to `Refresh` of the old state. |
| `Engine.AnyRevealedNamed` | mia-fortune.py:114 | The `any(...)` scan over the revealed slots is true exactly when some revealed slot holds a reward with one of the target names. |
| `Engine.SimulateGame` | mia-fortune.py:98-139 | From a fresh round with non-negative tokens, the loop refreshes exactly `tokens / 15` times and always ends in a fresh round. It ends with `tokens mod 15` tokens and never goes negative. The reveal block is unreachable. |
| `Engine.RunRound` | mia-fortune.py:144-148 | For simulation number `n` (strategy `SIMULATIONS[n - 1]`), the counts `run_simulation` reads back after `simulate_game` are the initial zero counters. |
| `Sampler.FirstReaching` | mia-fortune.py:91-95 | The index it returns is the first whose inclusive running sum reaches `r`. When the list is non-empty and `r` is at most the total, it is inside the list. |
| `Sampler.FirstReachingFrom` | mia-fortune.py:92-95 | The same search starting at a given index. |
| `Sampler.FirstReachingUnique` | mia-fortune.py:93-94 | An index whose running sum reaches `r`, with no earlier one reaching it, is the one the search returns. |
| `Sampler.WeightedRandomChoice` | mia-fortune.py:88-96 | The scan returns the item at the first index whose running sum reaches the draw `r`. It returns `None`, the failing `assert`, when no running sum reaches it, which is always the case for an empty list. |
| `Sampler.PrefixMonotone` | mia-fortune.py:89-95 | With non-negative weights the running sums never decrease. |
| `Sampler.TotalNonNegative` | mia-fortune.py:89 | With non-negative weights the total is non-negative. |
| `Sampler.ChosenExactlyInItsSlice` | mia-fortune.py:88-96 | With non-negative weights and `r > 0`, item `k` is chosen exactly when `r` lies in its own slice `(prefix_k, prefix_k + weight_k]`. |
| `Sampler.ChoiceAlwaysFound` | mia-fortune.py:89-96 | For a non-empty list with non-negative weights and `0 <= u <= 1`, the scan always returns an item. |
| `Table.MinRowLength` | mia-fortune.py:42 | The shortest row's length: it is at most every row's length and equals one of them. |
| `Table.ColumnCount` | mia-fortune.py:42-43 | The number of columns is at most the number of headers and at most every row's length, and equals one of these. With no rows there are no columns. |
| `Table.CellWidth` | mia-fortune.py:42 | A column's widest cell: at least every cell's length, and equal to one of them. |
| `Table.Widths` | mia-fortune.py:42-43 | Each column width is at least its header's length and at least every cell's length in that column, and equals one of them. |
| `Table.PadRight` | mia-fortune.py:44 | A left-aligned field is the text followed by spaces, and exactly as long as the larger of the text and the width. |
| `Table.GenerateTable` | mia-fortune.py:41-51 | The table built with `table +=` is the concatenation of the border, header row, border, data rows and border. |
| `Table.ConcatStep` | mia-fortune.py:46-50 | Appending one more line to the concatenation appends that line. |
| `Table.JoinCells` | mia-fortune.py:44 | Padding never cuts a cell: the joined cells are at least the widths' sum plus 3 per separator long. |
| `Table.JoinCellsLength` | mia-fortune.py:44 | Joined fitting cells are exactly the widths' sum plus 3 per separator long. |
| `Table.RowLine` | mia-fortune.py:46-49 | A row line is never narrower than `sum(widths) + 3·ncols + 1` characters plus its newline. |
| `Table.Dashes` | mia-fortune.py:45 | The joined dashes of a border are the widths' sum plus 3 per column, minus 1, long. |
| `Table.Border` | mia-fortune.py:45 | A border line is `sum(widths) + 3·ncols + 1` characters and a newline. |
| `Table.RowWidth` | mia-fortune.py:46-49 | A row of fitting cells is `sum(widths) + 3·ncols + 1` characters and a newline. |
| `Table.LinesOfWidth` | mia-fortune.py:44-50 | For any column widths that every header and cell fits in, each border, header and row line has width `sum(widths) + 3·ncols + 1` and ends in a newline. |
| `Table.AllLinesSameWidth` | mia-fortune.py:44-50 | With at least one column, every line of the table has the same width, `sum(widths) + 3·ncols + 1`, and ends in a newline. |
| `Table.JoinInner` | mia-fortune.py:44 | Inside the joined cells, column `c`'s text sits in full at the column's start. |
| `Table.CellLeftAligned` | mia-fortune.py:46-49 | In a row line, each cell's text appears in full at its column's start: cells are left-aligned. |
| `Table.NoRowsNoColumns` | mia-fortune.py:42-51 | With no rows the table has no columns and drops its headers: the lines are `"++"`, `"|  |"`, `"++"`, `"++"`. |
| `Strategies.AnyUnrevealedNamed` | strategies.py:14-15 | The `any(...)` over unrevealed rewards holds exactly when some slot's reward equals no revealed entry and carries one of the names. |
| `Strategies.Strategy1` | strategies.py:3-7 | Ends exactly when neither action is affordable. Otherwise it refreshes exactly when the wish is found and the reveal cost is above 4, and reveals otherwise. |
| `Strategies.Strategy2` | strategies.py:11-17 | Ends exactly when neither action is affordable. Otherwise it refreshes exactly when the reveal cost is above 5 and no unrevealed reward is named Essence Stones. |
| `Strategies.Strategy3` | strategies.py:21-25 | Ends exactly when neither action is affordable and never refreshes. It reveals even when only a refresh is affordable. |
| `Strategies.Strategy4` | strategies.py:28-35 | Ends exactly when neither action is affordable. Otherwise it reveals exactly when some unrevealed reward is named Multiplier. |
| `Strategies.Strategy5` | strategies.py:38-46 | Ends exactly when neither action is affordable. Otherwise it refreshes exactly when no unrevealed reward carries one of the four wanted names. |
| `Strategies.Strategy6` | strategies.py:49-54 | Ends exactly when neither action is affordable. Otherwise it reveals exactly when the reveal cost is below 10. |
| `Strategies.Strategy7` | strategies.py:57-61 | Ends exactly when neither action is affordable. Otherwise it refreshes exactly when the wish is found and the reveal cost is above 3. |
| `Strategies.EndExactlyWhenBroke` | strategies.py:5 | Every policy answers "end" exactly when tokens are below both costs, and otherwise answers refresh or reveal. |
| `Strategies.UnrevealedValueIsHidden` | strategies.py:15 | In a valid round, a reward that equals no revealed entry sits in a hidden slot. |
| `Strategies.RevealOnlyWhileSlotHidden` | strategies.py:4-62 | In a valid round, every policy except strategy 3 asks to reveal only while some slot is hidden. |
| `Strategies.Strategy3RevealsExhaustedRound` | strategies.py:21-25 | In a valid round with all ten slots revealed and non-negative tokens, strategy 3 still asks to reveal. |
| `Strategies.DuplicateHidesMultiplier` | strategies.py:31-32 | Because "unrevealed" is decided by value, a hidden Multiplier whose twin is revealed is not counted, and strategy 4 refreshes. |
| `Strategies.Strategy1IgnoresCostAlone` | strategies.py:3-6 | Strategy 1 as written reveals at reveal cost 9 while the wish is not found. |
| `Strategies.Strategy7IgnoresCostAlone` | strategies.py:57-60 | Strategy 7 as written reveals at reveal cost 9 while the wish is not found. |
| `Strategies.Strategy1Intended` | strategies.py:3-7 | Strategy 1 as named: refreshes exactly when it can act and either the wish is found or the reveal cost is above 4. |
| `Strategies.Strategy7Intended` | strategies.py:57-61 | Strategy 7 as named: refreshes exactly when it can act and either the wish is found or the reveal cost is above 3. |
| `Strategies.IntendedRevealBounds` | strategies.py:3-7 | In a valid round, the intended strategies 1 and 7 reveal only while fewer than 4 (resp. 3) slots are revealed and the wish is not found. |

## Left out

- `load_data`, `print_centered`, `print_progress_bar`, `print_game_state` and `print_simulation_results` are left out: they are file input and terminal output.
- `main`'s argument parsing, the input prompts, the re-prompt on a bad wish choice, and the `'c'` and `'h'` commands are left out: they are console interaction. Only the `'r'` and `'f'` bodies are modelled.
- The `time.sleep(2)` of verbose mode is left out.
- The `random` module is replaced by parameters (`Round.Draw`, slot draws, the sampler's `r`). The distribution of these choices is not modelled.
- Round.InitializeGame: it requires that the wish name is in the wish list, because both callers take the name from that list. It also requires a valid draw of 9 distinct positions, so the `ValueError` that `random.sample` raises on fewer than 9 pool items is not modelled.
- Engine.SimulateGame: it requires a fresh round, which is what its only caller passes. It also requires enough refresh draws for the token budget. Runs from a partly revealed round are not modelled.
- Engine.Game.Reveal: its contract gives only the new state. That a valid game stays valid is `Round.RevealPreservesInvariant`, which its callers apply.
- Engine.PickUnrevealed: it sees a finite prefix of the random stream. "Never exits" is stated as "no draw in the prefix is accepted".
- Engine.RunRound: it models one round of `run_simulation`. The float averaging `quantity / rounds` and the outer loops are left out.
- Sampler.WeightedRandomChoice: weights are exact reals, not floats, so float rounding is not modelled. The draw `r` is a parameter, and that `random.uniform(0, total)` is uniform on `[0, total]` is not modelled.
- `mia-fortune-random-choice-verify.py` is not part of this model. It is a separate float-rounding sampler and a timing harness.
- The insertion order of the `collected_rewards` dictionary, which only affects display order, is not modelled: a `map` has no order.
- Python's truthiness test `not revealed_rewards[index]` is modelled as "the slot is `None`", since every reward is a non-empty dictionary.
- Strategies.Decide: the `strategies` list is modelled as this numbered dispatch. The strategies' `name` strings are left out.

## Findings

| source | as written | input that shows it | evidently intended | confidence | as-written member | corrected member |
|---|---|---|---|---|---|---|
| mia-fortune.py:209-217 | The `'r'` command checks only `tokens >= reveal_cost` before drawing slots until it finds a hidden one. | A round with all ten slots revealed (reveal cost 11) and at least 11 tokens: the `randint` loop never exits. | Refuse to reveal when every slot is revealed. | high, not executed | `Engine.InteractiveRevealAsWritten`, `Engine.EleventhRevealNeverPicks` | `Engine.InteractiveReveal` |
| strategies.py:3-7 | Refreshes only when the wish is found and the reveal cost is above 4. | Tokens 100, reveal cost 9, refresh cost 15, wish not found: answers `"reveal"`. | "Refresh on finding wish reward or reveal cost > 4": refresh when either holds. | medium, not executed | `Strategies.Strategy1`, `Strategies.Strategy1IgnoresCostAlone` | `Strategies.Strategy1Intended`, `Strategies.IntendedRevealBounds` |
| strategies.py:57-61 | Refreshes only when the wish is found and the reveal cost is above 3. | Tokens 100, reveal cost 9, refresh cost 15, wish not found: answers `"reveal"`. | "Refresh on finding wish reward or reveal cost > 3": refresh when either holds. | medium, not executed | `Strategies.Strategy7`, `Strategies.Strategy7IgnoresCostAlone` | `Strategies.Strategy7Intended`, `Strategies.IntendedRevealBounds` |
