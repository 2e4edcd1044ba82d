/** The join-request ("aceptance") workflow: a guest asks to follow a board,
    the board's owner lists the requests addressed to them, and a response
    consumes a request and, on a yes, makes the guest a follower. */
module AceptanceController {
  import opened Sequences
  import opened Documents

  /** The two success messages of responseAceptanceCall. */
  datatype Answer =
    | Accepted   // 'Guest acept as follower'
    | Denied     // 'Guest denied access as follower'

  /** The filter of deleteOne({boardId, guestId}); the owner is not part of it. */
  predicate Matches(a: Aceptance, boardId: Id, guestId: Id) {
    a.boardId == boardId && a.guestId == guestId
  }

  /** The position of the first request matching (boardId, guestId) in
      natural order, or the length of the list when none matches. */
  function FirstMatch(reqs: seq<Aceptance>, boardId: Id, guestId: Id): (k: nat)
    ensures k <= |reqs|
    ensures forall j :: 0 <= j < k ==> !Matches(reqs[j], boardId, guestId)
    ensures k < |reqs| ==> Matches(reqs[k], boardId, guestId)
  {
    if |reqs| == 0 || Matches(reqs[0], boardId, guestId) then 0
    else 1 + FirstMatch(reqs[1..], boardId, guestId)
  }

  /** deleteOne({boardId, guestId}): removes the first matching request in the
      collection's natural order, and nothing when none matches; the other
      requests keep their order. */
  function DeleteOne(reqs: seq<Aceptance>, boardId: Id, guestId: Id): (r: seq<Aceptance>)
    ensures FirstMatch(reqs, boardId, guestId) == |reqs| ==> r == reqs
    ensures FirstMatch(reqs, boardId, guestId) < |reqs| ==>
              var k := FirstMatch(reqs, boardId, guestId);
              r == reqs[..k] + reqs[k + 1..]
    ensures multiset(r) <= multiset(reqs)
  {
    if |reqs| == 0 then []
    else if Matches(reqs[0], boardId, guestId) then
      DropAtHead(reqs);
      reqs[1..]
    else
      var rest := DeleteOne(reqs[1..], boardId, guestId);
      DeleteOneStep(reqs, boardId, guestId, rest);
      [reqs[0]] + rest
  }

  /** The recursive case of DeleteOne: when the head does not match, removing
      the first match of the tail and putting the head back removes the first
      match of the whole list. */
  lemma DeleteOneStep(reqs: seq<Aceptance>, boardId: Id, guestId: Id, rest: seq<Aceptance>)
    requires 0 < |reqs| && !Matches(reqs[0], boardId, guestId)
    requires FirstMatch(reqs[1..], boardId, guestId) == |reqs| - 1 ==> rest == reqs[1..]
    requires FirstMatch(reqs[1..], boardId, guestId) < |reqs| - 1 ==>
               var k := FirstMatch(reqs[1..], boardId, guestId);
               rest == reqs[1..][..k] + reqs[1..][k + 1..]
    ensures FirstMatch(reqs, boardId, guestId) == |reqs| ==> [reqs[0]] + rest == reqs
    ensures FirstMatch(reqs, boardId, guestId) < |reqs| ==>
              var k := FirstMatch(reqs, boardId, guestId);
              [reqs[0]] + rest == reqs[..k] + reqs[k + 1..]
    ensures multiset([reqs[0]] + rest) <= multiset(reqs)
  {
    var k := FirstMatch(reqs[1..], boardId, guestId);
    assert FirstMatch(reqs, boardId, guestId) == k + 1;
    if k < |reqs| - 1 {
      DropAtCons(reqs, k);
      DropAtMultiset(reqs, k + 1);
    } else {
      assert reqs == [reqs[0]] + reqs[1..];
    }
  }

  /** With no request matching (boardId, guestId) nothing is removed; with
      one, the collection is one request shorter. */
  lemma DeleteOneCounts(reqs: seq<Aceptance>, boardId: Id, guestId: Id)
    ensures (forall i :: 0 <= i < |reqs| ==> !Matches(reqs[i], boardId, guestId)) ==>
              DeleteOne(reqs, boardId, guestId) == reqs
    ensures (exists i :: 0 <= i < |reqs| && Matches(reqs[i], boardId, guestId)) ==>
              |DeleteOne(reqs, boardId, guestId)| == |reqs| - 1
  {
    var k := FirstMatch(reqs, boardId, guestId);
    if k < |reqs| {
      DropAtMultiset(reqs, k);
    }
  }

  /** Deleting a request keeps the collection free of duplicate requests. */
  lemma DeleteOneNoDup(reqs: seq<Aceptance>, boardId: Id, guestId: Id)
    requires NoDup(reqs)
    ensures NoDup(DeleteOne(reqs, boardId, guestId))
  {
    var k := FirstMatch(reqs, boardId, guestId);
    if k < |reqs| {
      DropAtNoDup(reqs, k);
    }
  }

  /** In a valid store a guest has at most one pending request per board:
      the triples are unique and a request's owner is fixed by its board. */
  lemma OneRequestPerPair(s: Store, i: nat, j: nat)
    requires s.Valid() && i < j < |s.aceptances|
    ensures s.aceptances[i].boardId != s.aceptances[j].boardId
            || s.aceptances[i].guestId != s.aceptances[j].guestId
  {
  }

  /** createNewAceptanceCall: the requester asks to follow `boardId`. */
  method CreateNewAceptanceCall(s: Store, requester: Id, boardId: Id) returns (r: Result<()>)
    requires s.Valid()
    modifies s`aceptances
    ensures s.Valid()
    ensures boardId == "" ==> r == Err(ParamNotFound)
    ensures boardId != "" && boardId !in s.boards ==> r == Err(BoardNotFound)
    ensures boardId != "" && boardId in s.boards && requester in s.boards[boardId].followers ==>
              r == Err(AlreadyFollowing)
    ensures boardId != "" && boardId in s.boards && requester !in s.boards[boardId].followers ==>
              var request := Aceptance(boardId, requester, s.boards[boardId].owner);
              if request in old(s.aceptances) then r == Err(RequestAlreadySent)
              else r == Ok(()) && s.aceptances == old(s.aceptances) + [request]
    ensures r.Err? ==> s.aceptances == old(s.aceptances)
  {
    if boardId == "" {
      return Err(ParamNotFound);
    }
    if boardId !in s.boards {
      return Err(BoardNotFound);
    }
    var board := s.boards[boardId];
    if requester in board.followers {
      return Err(AlreadyFollowing);
    }
    var request := Aceptance(boardId, requester, board.owner);
    if request in s.aceptances {
      return Err(RequestAlreadySent);
    }
    AppendNoDup(s.aceptances, request);
    s.aceptances := s.aceptances + [request];
    r := Ok(());
  }

  /** find({ownerId}): the requests addressed to `owner`, in natural order. */
  function RequestsTo(reqs: seq<Aceptance>, owner: Id): (r: seq<Aceptance>)
    ensures forall a :: a in r <==> a in reqs && a.ownerId == owner
    ensures |r| <= |reqs|
  {
    if |reqs| == 0 then []
    else if reqs[0].ownerId == owner then [reqs[0]] + RequestsTo(reqs[1..], owner)
    else RequestsTo(reqs[1..], owner)
  }

  /** getAllAceptanceCall: the requester's pending requests, the two id lists
      the forEach loop builds from them (entry i of each comes from request i),
      and the boards those requests are about. The identity-service lookup of
      the guests is not part of this model. */
  method GetAllAceptanceCall(s: Store, requester: Id)
    returns (requests: seq<Aceptance>, boardIds: seq<Id>, guestIds: seq<Id>,
             boards: map<Id, Board>)
    ensures requests == RequestsTo(s.aceptances, requester)
    ensures |boardIds| == |requests| && |guestIds| == |requests|
    ensures forall i :: 0 <= i < |requests| ==>
              boardIds[i] == requests[i].boardId && guestIds[i] == requests[i].guestId
    ensures forall id :: id in boards <==> id in s.boards && id in boardIds
    ensures forall id :: id in boards ==> boards[id] == s.boards[id]
  {
    requests := RequestsTo(s.aceptances, requester);
    boardIds, guestIds := [], [];
    var i := 0;
    while i < |requests|
      invariant 0 <= i <= |requests|
      invariant |boardIds| == i && |guestIds| == i
      invariant forall k :: 0 <= k < i ==>
                  boardIds[k] == requests[k].boardId && guestIds[k] == requests[k].guestId
    {
      boardIds := boardIds + [requests[i].boardId];
      guestIds := guestIds + [requests[i].guestId];
      i := i + 1;
    }
    boards := map id | id in s.boards && id in boardIds :: s.boards[id];
  }

  /** responseAceptanceCall. Any caller may answer: the handler does not check
      that the requester owns the board, nor that a matching request exists;
      with none to delete, a yes still appends the guest. The guest is appended
      without a duplicate check. */
  method ResponseAceptanceCall(s: Store, boardId: Id, guestId: Id, answer: bool)
    returns (r: Result<Answer>)
    requires s.Valid()
    modifies s`boards, s`aceptances
    ensures s.Valid()
    ensures boardId !in old(s.boards) ==>
              && r == Err(BoardNotFound)
              && s.boards == old(s.boards)
              && s.aceptances == old(s.aceptances)
    ensures boardId in old(s.boards) ==>
              var board := old(s.boards)[boardId];
              && r == Ok(if answer then Accepted else Denied)
              && s.aceptances == DeleteOne(old(s.aceptances), boardId, guestId)
              && s.boards == old(s.boards)[boardId := board.(followers :=
                   if answer then board.followers + [guestId] else board.followers)]
  {
    if boardId !in s.boards {
      return Err(BoardNotFound);
    }
    var remaining := DeleteOne(s.aceptances, boardId, guestId);
    DeleteOneNoDup(s.aceptances, boardId, guestId);
    RequestsOfBoardsSubset(s.boards, s.aceptances, remaining);
    s.aceptances := remaining;
    var board := s.boards[boardId];
    var message := Denied;
    if answer {
      var joined := board.(followers := board.followers + [guestId]);
      UniqueBoardNamesUpdate(s.boards, boardId, joined);
      BoardUpdateKeepsOwners(s.boards, s.aceptances, boardId, joined);
      s.boards := s.boards[boardId := joined];
      message := Accepted;
    } else {
      assert s.boards == s.boards[boardId := board.(followers := board.followers)];
    }
    r := Ok(message);
  }
}
