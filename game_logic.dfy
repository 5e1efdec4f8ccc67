/**
 * One round of the Chameleon word game: a per-channel session that
 * collects clues and votes and resolves the vote, and the read-only
 * store of secret words by category.
 */
module GameLogic {
  import opened Wrappers
  import opened Collections
  import opened VoteTally
  import Random

  /** The two ways an operation of the game logic can raise. */
  datatype GameError =
    | EmptySequence                      // `random.choice` on an empty list raises IndexError
    | NoWordsAvailable(category: string) // the resolved category has no words (ValueError)

  /** The state of one game, updated in place as the round goes on. */
  class GameSession {
    /** The participants, fixed when the session is created; repeats are allowed. */
    const players: seq<int>
    var chameleonId: Option<int>
    var secretWord: Option<string>
    var category: Option<string>
    /** At most one clue per player; a later clue replaces an earlier one. */
    var clues: map<int, string>
    /** At most one vote per voter: voter to the player voted for. */
    var votes: map<int, int>
    /** The voters in the order of their first vote: the iteration order of `votes`. */
    var voters: seq<int>

    /**
     * Every clue giver, voter and vote target is a player, and so is the
     * chameleon once chosen. The guards of AddClue, AddVote and
     * SelectChameleon keep this; it is why counting a vote never meets a
     * player without a count.
     */
    ghost predicate Valid()
      reads this
    {
      && (forall p :: p in clues ==> p in players)
      && (forall v :: v in votes ==> v in players && votes[v] in players)
      && Distinct(voters)
      && (forall v :: v in voters <==> v in votes)
      && (chameleonId.Some? ==> chameleonId.value in players)
    }

    constructor (players: seq<int>)
      ensures Valid()
      ensures this.players == players
      ensures chameleonId == None && secretWord == None && category == None
      ensures clues == map[] && votes == map[] && voters == []
    {
      this.players := players;
      chameleonId := None;
      secretWord := None;
      category := None;
      clues := map[];
      votes := map[];
      voters := [];
    }

    /**
     * Chooses some player as the chameleon, records and returns it. With no
     * players the choice raises and nothing changes.
     */
    method SelectChameleon() returns (r: Result<int, GameError>)
      requires Valid()
      modifies this`chameleonId
      ensures Valid()
      ensures players == [] ==> r == Failure(EmptySequence) && chameleonId == old(chameleonId)
      ensures players != [] ==> r.Success? && r.value in players && chameleonId == Some(r.value)
    {
      var pick := Random.Choice(players);
      if pick.None? {
        return Failure(EmptySequence);
      }
      chameleonId := pick;
      r := Success(pick.value);
    }

    /** Replaces the secret word and its category; no other field changes. */
    method SetSecretWord(word: string, category: string)
      requires Valid()
      modifies this`secretWord, this`category
      ensures Valid()
      ensures secretWord == Some(word) && this.category == Some(category)
    {
      secretWord := Some(word);
      this.category := Some(category);
    }

    /**
     * Records `clue` for a player, replacing an earlier clue of theirs;
     * a caller who is not a player is refused and nothing changes.
     */
    method AddClue(playerId: int, clue: string) returns (ok: bool)
      requires Valid()
      modifies this`clues
      ensures Valid()
      ensures ok <==> playerId in players
      ensures clues == if ok then old(clues)[playerId := clue] else old(clues)
    {
      if playerId !in players {
        return false;
      }
      clues := clues[playerId := clue];
      ok := true;
    }

    /**
     * Records that `voterId` votes for `votedForId`, replacing the voter's
     * earlier vote; refused, with nothing changed, unless both are players.
     * Voting for oneself is accepted. A new voter goes to the end of the
     * iteration order; a changed vote keeps its place.
     */
    method AddVote(voterId: int, votedForId: int) returns (ok: bool)
      requires Valid()
      modifies this`votes, this`voters
      ensures Valid()
      ensures ok <==> voterId in players && votedForId in players
      ensures votes == if ok then old(votes)[voterId := votedForId] else old(votes)
      ensures voters == if ok && voterId !in old(votes) then old(voters) + [voterId] else old(voters)
    {
      if voterId !in players || votedForId !in players {
        return false;
      }
      if voterId !in votes {
        voters := voters + [voterId];
      }
      votes := votes[voterId := votedForId];
      ok := true;
    }

    /**
     * The number of votes each player received: exactly the players as
     * keys, each count the number of voters who chose that player, and
     * the counts (one per distinct player) add up to the number of voters.
     */
    method GetVoteResults() returns (counts: map<int, int>)
      requires Valid()
      ensures forall p :: p in counts <==> p in players
      ensures forall p :: p in counts ==> counts[p] == VotesFor(votes, p) && counts[p] >= 0
      ensures CountsAgree(votes, counts, Dedup(players))
      ensures SumOver(counts, Dedup(players)) == |votes|
    {
      counts := map p | p in players :: 0;
      TallyStart(votes, players);
      for k := 0 to |voters|
        invariant Tallied(votes, voters[..k], players, counts)
      {
        var voter := voters[k];
        assert voter in voters;
        TallyStep(votes, voters, k, players, counts);
        var votedFor := votes[voter];
        counts := counts[votedFor := counts[votedFor] + 1];
      }
      assert voters[..|voters|] == voters;
      TallyDone(votes, voters, players, counts);
      var keys := Dedup(players);
      forall i | 0 <= i < |keys|
        ensures keys[i] in counts && counts[keys[i]] == VotesFor(votes, keys[i])
      {
        assert keys[i] in keys;
      }
      CountsSumToVoters(votes, counts, keys);
    }

    /**
     * Resolves the vote: no result without players; otherwise the most
     * voted player, on a tie the first one in player order (equally, in
     * the key order of the tally), and whether that player is the
     * chameleon.
     */
    method CheckChameleonCaught() returns (caught: bool, mostVoted: Option<int>)
      requires Valid()
      ensures players == [] ==> !caught && mostVoted == None
      ensures players != [] ==> mostVoted.Some? && mostVoted.value in players
                                && IsFirstMostVoted(players, votes, mostVoted.value)
                                && IsFirstMostVoted(Dedup(players), votes, mostVoted.value)
      ensures caught <==> mostVoted.Some? && chameleonId == mostVoted
    {
      var results := GetVoteResults();
      if players == [] {
        return false, None;
      }
      // Python's `max` over the dict keeps the first maximum in key order;
      // scanning the player list with a strict comparison picks the same
      // player (FirstMostVotedAlongKeys).
      forall j | 0 <= j < |players|
        ensures players[j] in results && results[players[j]] == VotesFor(votes, players[j])
      {
        var p := players[j];
        assert p in players;
      }
      var best := players[0];
      ghost var at := 0;
      var i := 1;
      while i < |players|
        invariant 1 <= i <= |players|
        invariant CountsAgree(votes, results, players)
        invariant 0 <= at < i && players[at] == best
        invariant forall j :: 0 <= j < i ==> results[players[j]] <= results[best]
        invariant forall j :: 0 <= j < at ==> results[players[j]] < results[best]
      {
        if results[players[i]] > results[best] {
          best, at := players[i], i;
        }
        i := i + 1;
      }
      FirstMaxOfCounts(players, votes, results, at);
      FirstMostVotedAlongKeys(players, votes, best);
      mostVoted := Some(best);
      caught := chameleonId == mostVoted;
    }
  }

  /**
   * The secret words by category, fixed at construction and only read
   * afterwards. `categories` is the insertion order of the dict's keys.
   */
  datatype WordListManager = WordListManager(wordLists: map<string, seq<string>>, categories: seq<string>)
  {
    /** `categories` lists every key of `wordLists` exactly once. */
    ghost predicate Valid()
    {
      && Distinct(categories)
      && forall c :: c in categories <==> c in wordLists
    }

    /** The requested category is one of the known ones. */
    predicate Known(category: Option<string>)
    {
      category.Some? && category.value in wordLists
    }

    /**
     * Some word of the requested category, with that category; for no or
     * an unknown category, some word of some known category. Raises when
     * there is no category to fall back on or the resolved category has
     * no words.
     */
    method GetRandomWord(category: Option<string>) returns (r: Result<(string, string), GameError>)
      requires Valid()
      ensures r.Success? ==> r.value.1 in wordLists && r.value.0 in wordLists[r.value.1]
      ensures Known(category) && r.Success? ==> r.value.1 == category.value
      ensures Known(category) ==>
                (r.Failure? <==> wordLists[category.value] == [])
      ensures Known(category) && wordLists[category.value] == [] ==>
                r == Failure(NoWordsAvailable(category.value))
      ensures r == Failure(EmptySequence) <==> !Known(category) && wordLists == map[]
      ensures r.Failure? && r.error.NoWordsAvailable? ==>
                r.error.category in wordLists && wordLists[r.error.category] == []
      ensures (forall c :: c in wordLists ==> wordLists[c] != []) && wordLists != map[] ==> r.Success?
    {
      var resolved: string;
      if Known(category) {
        resolved := category.value;
      } else {
        var pick := Random.Choice(categories);
        if pick.None? {
          assert forall c :: c !in wordLists;
          return Failure(EmptySequence);
        }
        resolved := pick.value;
      }
      if wordLists[resolved] == [] {
        return Failure(NoWordsAvailable(resolved));
      }
      var word := Random.Choice(wordLists[resolved]);
      r := Success((word.value, resolved));
    }

    /** Every known category, each once. */
    function GetCategories(): (r: seq<string>)
      requires Valid()
      ensures Distinct(r)
      ensures forall c :: c in r <==> c in wordLists
    {
      categories
    }
  }
}
