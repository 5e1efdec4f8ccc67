/**
 * Small games played through the public operations, each with its
 * outcome stated and proved from the operations' contracts alone.
 */
module GameScenarios {
  import opened Wrappers
  import opened VoteTally
  import opened GameLogic

  /** The votes of the first scenario: players 1 and 3 both vote for player 2. */
  lemma MajorityVotes(counts: map<int, int>)
    requires forall p :: p in counts <==> p in [1, 2, 3]
    requires forall p :: p in counts ==> counts[p] == VotesFor(map[1 := 2, 3 := 2], p)
    ensures counts == map[1 := 0, 2 := 2, 3 := 0]
  {
    var votes := map[1 := 2, 3 := 2];
    assert VotersFor(votes, 1) == {};
    assert VotersFor(votes, 2) == {1, 3};
    assert VotersFor(votes, 3) == {};
    var players := [1, 2, 3];
    assert players[0] in players && players[1] in players && players[2] in players;
    forall p | p in counts ensures p == 1 || p == 2 || p == 3 {
      assert p in players;
    }
    assert counts.Keys == {1, 2, 3};
  }

  /** With those votes, player 2 is the one a first-maximum scan picks. */
  lemma MajorityWinner(w: int)
    requires IsFirstMostVoted([1, 2, 3], map[1 := 2, 3 := 2], w)
    ensures w == 2
  {
    var votes := map[1 := 2, 3 := 2];
    assert VotersFor(votes, 1) == {};
    assert VotersFor(votes, 2) == {1, 3};
    assert VotersFor(votes, 3) == {};
    assert VotesFor(votes, w) >= VotesFor(votes, [1, 2, 3][1]);
  }

  /**
   * Players 1, 2 and 3; player 2 is the chameleon; players 1 and 3 vote
   * for 2. Player 2 gets both votes, the others none, and is caught.
   */
  method CaughtByMajority() returns (counts: map<int, int>, caught: bool, mostVoted: Option<int>)
    ensures counts == map[1 := 0, 2 := 2, 3 := 0]
    ensures caught && mostVoted == Some(2)
  {
    var session := new GameSession([1, 2, 3]);
    session.chameleonId := Some(2);
    var ok := session.AddVote(1, 2);
    ok := session.AddVote(3, 2);
    counts := session.GetVoteResults();
    MajorityVotes(counts);
    caught, mostVoted := session.CheckChameleonCaught();
    MajorityWinner(mostVoted.value);
  }

  /**
   * A second secret word, a second clue and a second vote from the same
   * player replace the first ones; the earlier target loses its vote.
   */
  method LaterCallsOverwrite() returns (word: Option<string>, category: Option<string>,
                                        clues: map<int, string>, votes: map<int, int>, firstTarget: nat)
    ensures word == Some("tiger") && category == Some("animals")
    ensures clues == map[1 := "stripes"]
    ensures votes == map[1 := 3]
    ensures firstTarget == 0
  {
    var session := new GameSession([1, 2, 3]);
    session.SetSecretWord("paris", "cities");
    session.SetSecretWord("tiger", "animals");
    var ok := session.AddClue(1, "eiffel");
    ok := session.AddClue(1, "stripes");
    ok := session.AddVote(1, 2);
    ok := session.AddVote(1, 3);
    word, category, clues, votes := session.secretWord, session.category, session.clues, session.votes;
    assert VotersFor(votes, 2) == {};
    firstTarget := VotesFor(votes, 2);
  }

  /** Unknown players and unknown targets are refused and leave the clues and votes as they were. */
  method OutsidersRefused() returns (clueOk: bool, voterOk: bool, targetOk: bool,
                                     clues: map<int, string>, votes: map<int, int>)
    ensures !clueOk && !voterOk && !targetOk
    ensures clues == map[]
    ensures votes == map[]
  {
    var session := new GameSession([1, 2]);
    clueOk := session.AddClue(7, "hello");
    voterOk := session.AddVote(7, 1);
    targetOk := session.AddVote(1, 7);
    clues, votes := session.clues, session.votes;
  }

  /**
   * Players but no votes do not give an empty result: the first player
   * is the most voted, and is caught when they are the chameleon.
   */
  method NoVotesCatchesFirstPlayer() returns (caught: bool, mostVoted: Option<int>)
    ensures caught && mostVoted == Some(1)
  {
    var session := new GameSession([1, 2]);
    session.chameleonId := Some(1);
    caught, mostVoted := session.CheckChameleonCaught();
    NoVotesPicksFirstPlayer([1, 2], mostVoted.value);
  }

  /** With no players no chameleon can be chosen, and the vote has no result. */
  method NobodyToChoose() returns (chosen: Result<int, GameError>, caught: bool, mostVoted: Option<int>)
    ensures chosen == Failure(EmptySequence)
    ensures !caught && mostVoted == None
  {
    var session := new GameSession([]);
    chosen := session.SelectChameleon();
    caught, mostVoted := session.CheckChameleonCaught();
  }

  /** An unknown category falls back to the only known one, "animals". */
  method UnknownCategoryFallsBack() returns (r: Result<(string, string), GameError>)
    ensures r.Success? && r.value.1 == "animals" && r.value.0 in ["cat", "dog"]
  {
    var manager := WordListManager(map["animals" := ["cat", "dog"]], ["animals"]);
    assert forall c :: c in manager.wordLists ==> c == "animals";
    assert manager.wordLists["animals"] != [];
    r := manager.GetRandomWord(Some("birds"));
  }

  /** Asking for a category that has no words raises. */
  method EmptyCategoryRaises() returns (r: Result<(string, string), GameError>)
    ensures r == Failure(NoWordsAvailable("empty"))
  {
    var manager := WordListManager(map["empty" := []], ["empty"]);
    r := manager.GetRandomWord(Some("empty"));
  }
}
