/**
 * Concrete runs of the pairing loop: a bridge that grants a credential only
 * after its link button was pressed, a race between two bridges, and the
 * reply shape the bridge documents.
 */
module Scenarios {
  import opened Wrappers
  import opened Json
  import opened Discovery
  import opened Pairing
  import opened Polling

  /** The bridge's answer while its link button has not been pressed. */
  const ButtonNotPressed: Reply :=
    Received(Some(JArray([JObject(map["error" := JObject(map[
      "type" := JNumber(101),
      "address" := JString(""),
      "description" := JString("link button not pressed")])])])))

  /** A reply whose `success` value is the username itself, the shape the code decodes. */
  function Granted(username: string): Reply
  {
    Received(Some(JArray([JObject(map["success" := JString(username)])])))
  }

  /** One bridge; it refuses three rounds and grants `abc123` in the fourth. */
  function FourthRoundGrants(): seq<seq<Completion>>
  {
    seq(MaxRounds, i => if i == 3 then [Completion(0, Granted("abc123"))] else [Completion(0, ButtonNotPressed)])
  }

  lemma FourthRoundGrantsIsWellFormed()
    ensures WellFormed([Bridge("10.0.0.5")], FourthRoundGrants())
  {
  }

  /**
   * The loop as written never sees the fourth round: the channel of the
   * first, empty, round is never closed. With the sender dropped, the run
   * saves `abc123` for `10.0.0.5` after four rounds and three pauses.
   */
  lemma ButtonPressedInFourthRound(saveResult: Result<(), string>)
    ensures WellFormed([Bridge("10.0.0.5")], FourthRoundGrants())
    ensures Run([Bridge("10.0.0.5")], FourthRoundGrants(), saveResult, true) == Hung(1)
    ensures Run([Bridge("10.0.0.5")], FourthRoundGrants(), saveResult, false)
            == Returned(saveResult, [User("abc123", "10.0.0.5")], 4, 3)
  {
    var bridges := [Bridge("10.0.0.5")];
    var rounds := FourthRoundGrants();
    FourthRoundGrantsIsWellFormed();
    assert Authorize("10.0.0.5", ButtonNotPressed) == Rejected;
    assert Authorize("10.0.0.5", Granted("abc123")) == Success(User("abc123", "10.0.0.5"));
    forall j | 0 <= j < 3 ensures SuccessesAt(bridges, rounds, j) == [] {
      assert Outcomes(bridges, rounds[j]) == [Rejected];
    }
    assert Outcomes(bridges, rounds[3]) == [Success(User("abc123", "10.0.0.5"))];
    assert SuccessesAt(bridges, rounds, 3) == [User("abc123", "10.0.0.5")];
    DroppingSenderSavesFirstSuccessfulRound(bridges, rounds, saveResult, 0, 3);
  }

  /** Two bridges granting in the same round: the one that finished first is saved, the other is not. */
  lemma RaceSavesFirstCompleted(saveResult: Result<(), string>)
    ensures var bridges := [Bridge("10.0.0.5"), Bridge("10.0.0.6")];
      var rounds := seq(MaxRounds, i => [Completion(1, Granted("second")), Completion(0, Granted("first"))]);
      && WellFormed(bridges, rounds)
      && Run(bridges, rounds, saveResult, true) == Returned(saveResult, [User("second", "10.0.0.6")], 1, 0)
  {
    var bridges := [Bridge("10.0.0.5"), Bridge("10.0.0.6")];
    var rounds := seq(MaxRounds, i => [Completion(1, Granted("second")), Completion(0, Granted("first"))]);
    assert WellFormed(bridges, rounds);
    assert Outcomes(bridges, rounds[0]) == [Success(User("second", "10.0.0.6")), Success(User("first", "10.0.0.5"))];
  }

  /** The grant as the bridge documents it: `[{"success": {"username": ...}}]`. */
  function DocumentedGrant(username: string): Reply
  {
    Received(Some(JArray([JObject(map["success" := JObject(map["username" := JString(username)])])])))
  }

  /**
   * The code decodes the `success` value itself as a string, so the
   * documented grant makes the attempt panic; reading its `username` field
   * instead yields the credential.
   */
  lemma DocumentedGrantPanics(ip: string, username: string)
    ensures Authorize(ip, DocumentedGrant(username)) == Panicked
  {
  }

  lemma DocumentedGrantAccepted(ip: string, username: string)
    ensures AuthorizeDocumented(ip, DocumentedGrant(username)) == Success(User(username, ip))
  {
  }
}
