/** Client runs of the handlers: what a caller can conclude from their
    contracts alone, for the join workflow end to end. */
module Scenarios {
  import opened Documents
  import BoardController
  import AceptanceController

  /** U1 creates board B1, U2 asks to join it, and U1 accepts: the store
      afterwards, as far as the handler contracts determine it. */
  method AcceptedJoin() returns (s: Store)
    ensures fresh(s) && s.Valid()
    ensures "B1" in s.boards && s.boards["B1"].followers == ["U1", "U2"]
    ensures s.aceptances == []
  {
    s := new Store({"U1", "U2"});
    var created := BoardController.CreateNewBoard(s, "U1", "Sprint", "#fff", "star", false, "B1");
    assert created == Ok("B1");
    var asked := AceptanceController.CreateNewAceptanceCall(s, "U2", "B1");
    assert asked == Ok(());
    assert s.aceptances == [Aceptance("B1", "U2", "U1")];
    var answered := AceptanceController.ResponseAceptanceCall(s, "B1", "U2", true);
    assert answered == Ok(AceptanceController.Accepted);
  }

  /** U1 creates a board, U2 asks to join, and the request is accepted: the
      board's followers become [U1, U2] and no request is left pending. */
  method JoinScenario() returns (followers: seq<Id>, pending: seq<Aceptance>)
    ensures followers == ["U1", "U2"]
    ensures pending == []
  {
    var s := AcceptedJoin();
    followers, pending := s.boards["B1"].followers, s.aceptances;
  }

  /** A second yes for the same guest finds no request to consume, yet it
      succeeds and appends the guest a second time. */
  method RespondTwiceScenario() returns (followers: seq<Id>, second: Result<AceptanceController.Answer>)
    ensures second == Ok(AceptanceController.Accepted)
    ensures followers == ["U1", "U2", "U2"]
  {
    var s := AcceptedJoin();
    second := AceptanceController.ResponseAceptanceCall(s, "B1", "U2", true);
    followers := s.boards["B1"].followers;
  }
}
