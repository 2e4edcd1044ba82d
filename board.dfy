/** The board handlers: creation with per-owner name uniqueness, the three
    list filters, the cards of a board visible to the requester, and a delete
    that never gets as far as deleting. */
module BoardController {
  import opened Documents

  /** createNewBoard; `newId` is the id the store assigns to the new board. */
  method CreateNewBoard(s: Store, requester: Id, nome: string, cor: string, icon: string,
                        favorito: bool, newId: Id)
    returns (r: Result<Id>)
    requires s.Valid()
    requires newId !in s.boards
    modifies s`boards
    ensures s.Valid()
    ensures requester !in s.users ==> r == Err(UserNotFound)
    ensures requester in s.users && NameTaken(old(s.boards), nome, requester) ==>
              r == Err(BoardAlreadyExists)
    ensures r.Err? ==> s.boards == old(s.boards)
    ensures requester in s.users && !NameTaken(old(s.boards), nome, requester) ==>
              && r == Ok(newId)
              && s.boards == old(s.boards)[newId := Board(nome, cor, icon, favorito, requester, [requester])]
  {
    if requester !in s.users {
      return Err(UserNotFound);
    }
    if NameTaken(s.boards, nome, requester) {
      return Err(BoardAlreadyExists);
    }
    s.boards := s.boards[newId := Board(nome, cor, icon, favorito, requester, [requester])];
    r := Ok(newId);
  }

  /** The three filters of listMyBoard. */
  predicate InAll(b: Board, user: Id) { b.owner == user }
  predicate InFav(b: Board, user: Id) { b.owner == user && b.favorito }
  predicate InShared(b: Board, user: Id) { b.owner == user || user in b.followers }

  /** listMyBoard: the route parameter selects a filter; an empty one means `all`. */
  function ListMyBoard(s: Store, requester: Id, param: string): (r: Result<map<Id, Board>>)
    reads s
    ensures requester !in s.users ==> r == Err(UserNotFound)
    ensures requester in s.users && param !in {"", "all", "fav", "shared"} ==> r == Err(UnknownParam)
    ensures r.Err? ==> requester !in s.users || param !in {"", "all", "fav", "shared"}
    ensures r.Ok? ==> forall id :: id in r.value ==> id in s.boards && r.value[id] == s.boards[id]
    ensures r.Ok? && (param == "" || param == "all") ==>
              forall id :: id in s.boards ==> (id in r.value <==> s.boards[id].owner == requester)
    ensures r.Ok? && param == "fav" ==>
              forall id :: id in s.boards ==>
                (id in r.value <==> s.boards[id].owner == requester && s.boards[id].favorito)
    ensures r.Ok? && param == "shared" ==>
              forall id :: id in s.boards ==>
                (id in r.value <==> s.boards[id].owner == requester || requester in s.boards[id].followers)
  {
    if requester !in s.users then Err(UserNotFound)
    else if param == "" || param == "all" then
      Ok(map id | id in s.boards && InAll(s.boards[id], requester) :: s.boards[id])
    else if param == "fav" then
      Ok(map id | id in s.boards && InFav(s.boards[id], requester) :: s.boards[id])
    else if param == "shared" then
      Ok(map id | id in s.boards && InShared(s.boards[id], requester) :: s.boards[id])
    else Err(UnknownParam)
  }

  /** The filters are nested: fav lists no more than all, all no more than shared. */
  lemma ListFiltersNested(s: Store, requester: Id)
    requires requester in s.users
    ensures ListMyBoard(s, requester, "fav").Ok? && ListMyBoard(s, requester, "all").Ok?
    ensures ListMyBoard(s, requester, "shared").Ok?
    ensures ListMyBoard(s, requester, "fav").value.Keys <= ListMyBoard(s, requester, "all").value.Keys
    ensures ListMyBoard(s, requester, "all").value.Keys <= ListMyBoard(s, requester, "shared").value.Keys
    ensures ListMyBoard(s, requester, "") == ListMyBoard(s, requester, "all")
  {
  }

  /** getThisBoard: the cards of board `id` that list the requester among their
      users. The query filters on the card's `board`, a path the card schema
      does not declare; the model takes the filter to be kept as written. */
  function GetThisBoard(s: Store, requester: Id, id: Id): (r: Result<map<Id, Card>>)
    reads s
    ensures requester !in s.users ==> r == Err(UserNotFound)
    ensures requester in s.users && id == "" ==> r == Err(ParamNotFound)
    ensures requester in s.users && id != "" ==> r.Ok?
    ensures r.Ok? ==>
              forall c :: c in r.value <==>
                c in s.cards && s.cards[c].board == Some(id) && requester in s.cards[c].users
    ensures r.Ok? ==> forall c :: c in r.value ==> r.value[c] == s.cards[c]
  {
    if requester !in s.users then Err(UserNotFound)
    else if id == "" then Err(ParamNotFound)
    else Ok(map c | c in s.cards && s.cards[c].board == Some(id) && requester in s.cards[c].users
                :: s.cards[c])
  }

  /** No handler sets a card's `board` (createNewCard leaves it unset and
      updateCard's merge keeps it), so on the cards the handlers build the
      query finds nothing. */
  lemma GetThisBoardEmpty(s: Store, requester: Id, id: Id)
    requires requester in s.users && id != ""
    requires forall c :: c in s.cards ==> s.cards[c].board == None
    ensures GetThisBoard(s, requester, id) == Ok(map[])
  {
    assert GetThisBoard(s, requester, id).value.Keys == {};
  }

  /** deleteBoard. The delete filters read `req.params.e`, which the route
      never binds, and dereferencing it throws before anything is deleted:
      every call fails, and the store is never changed (no `modifies`). */
  method DeleteBoard(s: Store, requester: Id, id: Id) returns (r: Result<()>)
    ensures requester !in s.users ==> r == Err(UserNotFound)
    ensures requester in s.users && id == "" ==> r == Err(ParamNotFound)
    ensures requester in s.users && id != "" ==> r == Err(SomethingWentWrong)
  {
    if requester !in s.users {
      return Err(UserNotFound);
    }
    if id == "" {
      return Err(ParamNotFound);
    }
    // reading a property of the unbound route parameter throws a TypeError
    r := Err(SomethingWentWrong);
  }
}
