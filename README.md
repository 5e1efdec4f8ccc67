# Chameleon game logic in Dafny

A model of the game logic of the Chameleon chat-bot game
(`utils/game_logic.py`). In the game one player, the chameleon, is not told
the secret word; every player gives a clue, then everyone votes on who the
chameleon is. Two units are modelled:

- `GameSession`, the mutable per-channel record of one game: a fixed player
  list, the chameleon once chosen, the secret word and its category, one clue
  per player and one vote per voter. It becomes the class
  `GameLogic.GameSession`. Its object invariant `Valid()` says that every clue
  giver, voter and vote target is a player, and so is the chosen chameleon.
  The guards of `add_clue` and `add_vote` keep this true. It is why the tally
  in `get_vote_results` never increments a missing key.
- `WordListManager`, the read-only map from category to candidate words. It
  becomes the datatype `GameLogic.WordListManager`: the map plus the insertion
  order of its keys.

Modules:

- `Wrappers` (wrappers.dfy): `Option` and `Result`. `Result.Failure` stands
  for a raised exception.
- `Random` (random.dfy): `random.choice` as a nondeterministic choice of some
  element. On an empty list it fails, as Python's `IndexError` does.
- `Collections` (collections.dfy): `Distinct`, and `Dedup`, the key order of a
  dict built by inserting a list's elements one by one.
- `VoteTally` (vote_tally.dfy): what a tally means. `VotesFor` gives the
  number of voters whose vote targets a player. The module proves the counting
  invariant (the counts sum to the number of voters), the effect of a changed
  vote, and the first-maximum tie-break.
- `GameLogic` (game_logic.dfy): the session class and the word-list manager.
- `GameScenarios` (scenarios.dfy): small games played through the operations,
  with their outcomes proved.

Python dicts keep insertion order, and two operations depend on it. The
tally's keys are inserted in the players' first-occurrence order
(`Dedup(players)`), which decides the tie-break in `CheckChameleonCaught`.
The votes are read in the order the voters first voted, kept as
`GameSession.voters`. A Dafny map has no key order, so the map that
`GetVoteResults` returns carries only its counts. Player lists may hold repeats. The source does not
reject them, so neither does the model.

Randomness is a choice with no promised distribution. Each random operation
only promises that its result is some element of its input.

## Model

| member | source | states |
|---|---|---|
| `Random.Choice` | utils/game_logic.py:127 | `random.choice` yields some element of a non-empty list and fails (IndexError) exactly on an empty one |
| `Collections.Dedup` | utils/game_logic.py:84 | the dict comprehension's keys are the players, each exactly once |
| `Collections.DedupPrefix` | utils/game_logic.py:84 | the keys inserted from a prefix of the player list form a prefix of the key order |
| `Collections.DedupFirstOccurrence` | utils/game_logic.py:84 | a player's first occurrence adds it as the next key |
| `VoteTally.TallyStart` | utils/game_logic.py:84 | the tally starts with every player at zero, keyed by exactly the players |
| `VoteTally.TallyStep` | utils/game_logic.py:85-86 | counting one more vote adds one to its target's count and changes no other count |
| `VoteTally.TallyDone` | utils/game_logic.py:85-87 | after all votes are counted, each player's count is the number of voters who chose that player |
| `VoteTally.SumOfCounts` | utils/game_logic.py:84-87 | counts summed over distinct players equal the number of voters whose target is among them |
| `VoteTally.CountsSumToVoters` | utils/game_logic.py:84-87 | when every target is a player, the counts sum to the number of voters |
| `VoteTally.RevoteMovesOneVote` | utils/game_logic.py:75 | a voter who votes again moves one vote from the old target to the new one; every other count stays |
| `VoteTally.FirstMaxOfCounts` | utils/game_logic.py:99 | a scan that met no larger count, and only smaller ones before its pick, has found the first most-voted player |
| `VoteTally.FirstMostVotedUnique` | utils/game_logic.py:99 | the first-maximum tie-break picks at most one player |
| `VoteTally.FirstMostVotedAlongKeys` | utils/game_logic.py:99 | the first maximum along the player list is also the first maximum along the tally's key order |
| `GameLogic.GameSession.constructor` | utils/game_logic.py:17-31 | a new session has the given players, no chameleon, word or category, and no clues or votes |
| `GameLogic.GameSession.SelectChameleon` | utils/game_logic.py:33-40 | returns a player and records that same player as the chameleon; with no players it fails and changes nothing |
| `GameLogic.GameSession.SetSecretWord` | utils/game_logic.py:42-50 | the word and category become the arguments; no other field changes |
| `GameLogic.GameSession.AddClue` | utils/game_logic.py:52-63 | true exactly for a player; then that player's clue is replaced and other clues stay; otherwise clues are unchanged; the invariant is kept |
| `GameLogic.GameSession.AddVote` | utils/game_logic.py:65-76 | true exactly when voter and target are both players, self-votes included; then the voter's one vote is replaced; otherwise votes are unchanged; the invariant is kept |
| `GameLogic.GameSession.GetVoteResults` | utils/game_logic.py:78-87 | keys are exactly the players; each count is the number of voters who chose that player, so it is at least 0; the counts sum to the number of voters |
| `GameLogic.GameSession.CheckChameleonCaught` | utils/game_logic.py:89-100 | no players gives (false, none); otherwise returns the most-voted player, on a tie the first in player order and in the tally's key order; caught exactly when that player is the chameleon |
| `GameLogic.WordListManager.GetRandomWord` | utils/game_logic.py:114-128 | a known category is kept and its word comes from that category's list; otherwise some known category is used; fails with no words in the resolved category, or with no categories to fall back on |
| `GameLogic.WordListManager.GetCategories` | utils/game_logic.py:130-136 | exactly the known categories, each once |
| `GameScenarios.MajorityVotes` | utils/game_logic.py:84-87 | votes {1:2, 3:2} over players [1, 2, 3] tally to {1:0, 2:2, 3:0} |
| `GameScenarios.MajorityWinner` | utils/game_logic.py:99 | with those votes the most-voted player is 2 |
| `GameScenarios.CaughtByMajority` | utils/game_logic.py:65-100 | chameleon 2 voted for by players 1 and 3 gets both votes and is caught |
| `GameScenarios.LaterCallsOverwrite` | utils/game_logic.py:49-75 | a second secret word, clue or vote from the same player replaces the first; the first target loses its vote |
| `VoteTally.NoVotesPicksFirstPlayer` | utils/game_logic.py:95-100 | with no votes the tie-break picks the first listed player, never no player |
| `GameScenarios.NoVotesCatchesFirstPlayer` | utils/game_logic.py:89-100 | players 1 and 2 with no votes: player 1 is most voted and, as chameleon, is caught |
| `GameScenarios.OutsidersRefused` | utils/game_logic.py:60-74 | a clue or vote involving a non-player is refused and records nothing |
| `GameScenarios.NobodyToChoose` | utils/game_logic.py:39-97 | with no players, choosing a chameleon fails and the vote has no result |
| `GameScenarios.UnknownCategoryFallsBack` | utils/game_logic.py:121-128 | an unknown category falls back to the only known one and returns one of its words |
| `GameScenarios.EmptyCategoryRaises` | utils/game_logic.py:124-125 | a requested category without words raises |

## Left out

- `channel_id` (utils/game_logic.py:24) is an opaque stored value that no operation reads. The model does not keep it, so the constructor takes only the players.
- `game_state` (utils/game_logic.py:31) is set to "setup" and never read or changed. It is not modelled, and no operation is gated on it.
- Random choice is modelled without its distribution. The model promises only that the result is some element of the list, not that every element is equally likely.
- Error messages are not modelled. `EmptySequence` stands for the `IndexError` from `random.choice` on an empty list. `NoWordsAvailable(category)` stands for the `ValueError` with its text.
- `get_vote_results` reads `votes.values()` in dict order. The model reads `votes[voters[k]]` in the same order, because a Dafny map's values form a set and would merge equal votes.
- `check_chameleon_caught` uses `max` over the tally's items. The model scans the player list with a strict comparison. `FirstMostVotedAlongKeys` proves this picks the same player as a scan of the tally's keys, which only drops repeats.
- The constructor keeps the caller's player list and the word-list manager keeps the caller's dict by reference (utils/game_logic.py:25, :112). The model takes both as values, so it does not capture a caller changing them later. In Python such a change would alter the player checks at :60 and :73, and removing a player who holds a vote would make the tally raise `KeyError` at :86.
- `GetVoteResults` returns a map without key order. Python's dict keeps the first-occurrence order of the players (utils/game_logic.py:84). The model captures that order only inside `CheckChameleonCaught`, through `Dedup` and `FirstMostVotedAlongKeys`.
- Integers are unbounded, as Python's are.
- The chat-command layer (cogs/chameleon_game.py) is not part of this model. It only renders placeholder messages and never calls this logic.
