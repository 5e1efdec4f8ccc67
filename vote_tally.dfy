/**
 * The meaning of a vote tally: how many voters chose each player, how
 * the counts add up, and which player a first-maximum scan picks.
 */
module VoteTally {
  import opened Collections

  /** The voters whose recorded vote targets `p`. */
  function VotersFor(votes: map<int, int>, p: int): set<int>
  {
    set v | v in votes && votes[v] == p
  }

  /** The number of votes player `p` received. */
  function VotesFor(votes: map<int, int>, p: int): nat
  {
    |VotersFor(votes, p)|
  }

  /** The voters listed in `counted` whose vote targets `p`. */
  function VotersAmong(votes: map<int, int>, counted: seq<int>, p: int): set<int>
  {
    set v | v in counted && v in votes && votes[v] == p
  }

  /**
   * `counts` has exactly the players as keys and holds, for each, the
   * votes of the voters listed in `counted`.
   */
  ghost predicate Tallied(votes: map<int, int>, counted: seq<int>, players: seq<int>, counts: map<int, int>)
  {
    && counts.Keys == (set p | p in players)
    && forall p :: p in counts ==> counts[p] == |VotersAmong(votes, counted, p)|
  }

  /** Before any vote is counted, every player's count is zero. */
  lemma TallyStart(votes: map<int, int>, players: seq<int>)
    ensures Tallied(votes, [], players, map p | p in players :: 0)
  {
  }

  /**
   * Counting the next voter, who has not been counted before, adds one
   * to the count of that voter's target and changes no other count.
   */
  lemma TallyStep(votes: map<int, int>, voters: seq<int>, k: nat, players: seq<int>, counts: map<int, int>)
    requires Distinct(voters) && k < |voters|
    requires voters[k] in votes && votes[voters[k]] in players
    requires Tallied(votes, voters[..k], players, counts)
    ensures votes[voters[k]] in counts
    ensures Tallied(votes, voters[..k + 1], players,
                    counts[votes[voters[k]] := counts[votes[voters[k]]] + 1])
  {
    var voter := voters[k];
    assert voters[..k + 1] == voters[..k] + [voter];
    assert voter !in voters[..k];
    forall p | p in counts
      ensures |VotersAmong(votes, voters[..k + 1], p)|
           == |VotersAmong(votes, voters[..k], p)| + (if votes[voter] == p then 1 else 0)
    {
      if votes[voter] == p {
        assert VotersAmong(votes, voters[..k + 1], p) == VotersAmong(votes, voters[..k], p) + {voter};
      } else {
        assert VotersAmong(votes, voters[..k + 1], p) == VotersAmong(votes, voters[..k], p);
      }
    }
  }

  /** Once every voter is counted, each count is the player's full number of votes. */
  lemma TallyDone(votes: map<int, int>, voters: seq<int>, players: seq<int>, counts: map<int, int>)
    requires forall v :: v in votes ==> v in voters
    requires Tallied(votes, voters, players, counts)
    ensures forall p :: p in counts <==> p in players
    ensures forall p :: p in counts ==> counts[p] == VotesFor(votes, p)
  {
    forall p ensures VotersAmong(votes, voters, p) == VotersFor(votes, p) {
      forall v | v in VotersFor(votes, p) ensures v in VotersAmong(votes, voters, p) {
        assert v in voters;
      }
    }
  }

  /** The voters whose vote targets any player listed in `keys`. */
  function VotersForAny(votes: map<int, int>, keys: seq<int>): set<int>
  {
    set v | v in votes && votes[v] in keys
  }

  /** The sum of `counts` over the keys listed in `keys`, in order. */
  function SumOver(counts: map<int, int>, keys: seq<int>): int
    requires forall i :: 0 <= i < |keys| ==> keys[i] in counts
  {
    if keys == [] then 0
    else
      counts[keys[0]] + SumOver(counts, keys[1..])
  }

  /** `counts` holds, for every player listed in `keys`, the votes that player received. */
  ghost predicate CountsAgree(votes: map<int, int>, counts: map<int, int>, keys: seq<int>)
  {
    forall i :: 0 <= i < |keys| ==> keys[i] in counts && counts[keys[i]] == VotesFor(votes, keys[i])
  }

  /**
   * Counts that agree with the votes, summed over distinct players,
   * give the number of voters who voted for one of those players.
   */
  lemma {:induction false} SumOfCounts(votes: map<int, int>, counts: map<int, int>, keys: seq<int>)
    requires Distinct(keys)
    requires CountsAgree(votes, counts, keys)
    ensures SumOver(counts, keys) == |VotersForAny(votes, keys)|
  {
    if keys == [] {
      assert VotersForAny(votes, keys) == {};
    } else {
      var rest := keys[1..];
      assert Distinct(rest);
      SumOfCounts(votes, counts, rest);
      assert keys[0] !in rest by {
        forall j | 0 <= j < |rest| ensures rest[j] != keys[0] {
          assert rest[j] == keys[j + 1];
        }
      }
      assert VotersForAny(votes, keys) == VotersFor(votes, keys[0]) + VotersForAny(votes, rest) by {
        assert forall x :: x in keys <==> x == keys[0] || x in rest;
      }
      assert VotersFor(votes, keys[0]) * VotersForAny(votes, rest) == {};
    }
  }

  /**
   * When every vote targets one of the distinct `keys`, the counts over
   * those keys add up to the number of voters.
   */
  lemma CountsSumToVoters(votes: map<int, int>, counts: map<int, int>, keys: seq<int>)
    requires Distinct(keys)
    requires CountsAgree(votes, counts, keys)
    requires forall v :: v in votes ==> votes[v] in keys
    ensures SumOver(counts, keys) == |votes|
  {
    SumOfCounts(votes, counts, keys);
    assert forall v :: v in votes ==> v in VotersForAny(votes, keys);
    assert VotersForAny(votes, keys) == votes.Keys;
  }

  /**
   * Recording `voter`'s vote for `target` replaces any earlier vote of
   * the same voter: the earlier target loses one vote, `target` gains one,
   * every other count stays.
   */
  lemma RevoteMovesOneVote(votes: map<int, int>, voter: int, target: int, p: int)
    ensures VotesFor(votes[voter := target], p)
         == VotesFor(votes, p)
            - (if voter in votes && votes[voter] == p then 1 else 0)
            + (if p == target then 1 else 0)
  {
    var before := VotersFor(votes, p) - {voter};
    assert VotersFor(votes[voter := target], p) == if p == target then before + {voter} else before;
    assert VotersFor(votes, p) == if voter in votes && votes[voter] == p then before + {voter} else before;
  }

  /**
   * `w` is the player a scan of `players` keeping the first maximum picks:
   * no player has more votes than `w`, and every player listed before the
   * first occurrence of `w` has strictly fewer.
   */
  ghost predicate IsFirstMostVoted(players: seq<int>, votes: map<int, int>, w: int)
  {
    && (forall j :: 0 <= j < |players| ==> VotesFor(votes, players[j]) <= VotesFor(votes, w))
    && exists i :: 0 <= i < |players| && players[i] == w
         && forall j :: 0 <= j < i ==> VotesFor(votes, players[j]) < VotesFor(votes, w)
  }

  /**
   * A scan that found no larger count than the one at `at`, and only
   * smaller counts before it, has found the first most-voted player.
   */
  lemma FirstMaxOfCounts(players: seq<int>, votes: map<int, int>, counts: map<int, int>, at: nat)
    requires CountsAgree(votes, counts, players)
    requires at < |players|
    requires forall j :: 0 <= j < |players| ==> counts[players[j]] <= counts[players[at]]
    requires forall j :: 0 <= j < at ==> counts[players[j]] < counts[players[at]]
    ensures IsFirstMostVoted(players, votes, players[at])
  {
  }

  /**
   * With no votes at all every count is zero, so the first-maximum
   * tie-break picks the first listed player rather than no player.
   */
  lemma NoVotesPicksFirstPlayer(players: seq<int>, w: int)
    requires IsFirstMostVoted(players, map[], w)
    ensures players != [] && w == players[0]
  {
    forall p ensures VotesFor(map[], p) == 0 {
      assert VotersFor(map[], p) == {};
    }
  }

  /** The first-maximum tie-break is deterministic: at most one player satisfies it. */
  lemma FirstMostVotedUnique(players: seq<int>, votes: map<int, int>, a: int, b: int)
    requires IsFirstMostVoted(players, votes, a)
    requires IsFirstMostVoted(players, votes, b)
    ensures a == b
  {
  }

  /**
   * Picking the first maximum along `players` picks the same player as
   * along the dict key order `Dedup(players)`, which only drops repeats.
   */
  lemma FirstMostVotedAlongKeys(players: seq<int>, votes: map<int, int>, w: int)
    requires IsFirstMostVoted(players, votes, w)
    ensures IsFirstMostVoted(Dedup(players), votes, w)
  {
    var i :| 0 <= i < |players| && players[i] == w
      && forall j :: 0 <= j < i ==> VotesFor(votes, players[j]) < VotesFor(votes, w);
    var keys := Dedup(players);
    var before := Dedup(players[..i]);
    assert w !in players[..i];
    DedupFirstOccurrence(players, i);
    DedupPrefix(players, i + 1);
    assert keys[|before|] == w;
    forall m | 0 <= m < |before|
      ensures VotesFor(votes, keys[m]) < VotesFor(votes, w)
    {
      assert keys[m] == before[m];
      assert before[m] in players[..i];
    }
    forall m | 0 <= m < |keys|
      ensures VotesFor(votes, keys[m]) <= VotesFor(votes, w)
    {
      assert keys[m] in players;
    }
  }
}
