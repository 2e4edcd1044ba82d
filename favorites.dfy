/** The favorites handler: a per-user toggle list of board ids. */
module FavoritesController {
  import opened Sequences
  import opened Documents

  /** The three success messages of createNewFav. */
  datatype FavMessage =
    | FirstFav     // 'First fav from this user recorded'
    | FavRemoved   // 'Fav removed'
    | FavAdded     // 'New fav from this user recorded'

  /** The toggle on an existing list: splice out the first occurrence of a
      listed board, push an unlisted one onto the end. A listed board loses
      one copy, an unlisted one gains one, and no other entry is touched. */
  function Toggle(favs: seq<Id>, boardId: Id): (r: seq<Id>)
    ensures boardId in favs ==> r == RemoveFirst(favs, boardId)
    ensures boardId in favs ==> multiset(r) == multiset(favs) - multiset{boardId}
    ensures boardId !in favs ==> multiset(r) == multiset(favs) + multiset{boardId}
    ensures boardId !in favs ==> |r| == |favs| + 1 && r[..|favs|] == favs && r[|favs|] == boardId
    ensures forall y :: y != boardId ==> (y in r <==> y in favs)
  {
    if boardId in favs then
      RemoveFirstMultiset(favs, boardId);
      RemoveFirst(favs, boardId)
    else
      favs + [boardId]
  }

  /** createNewFav. Only the requester's Favorites record may change. */
  method CreateNewFav(s: Store, requester: Id, boardId: Id) returns (r: Result<FavMessage>)
    requires s.Valid()
    modifies s`favorites
    ensures s.Valid()
    ensures boardId !in s.boards ==> r == Err(BoardNotFound)
    ensures boardId in s.boards && requester !in s.boards[boardId].followers ==>
              r == Err(NotAFollower)
    ensures r.Err? ==> s.favorites == old(s.favorites)
    ensures boardId in s.boards && requester in s.boards[boardId].followers &&
            requester !in old(s.favorites) ==>
              && r == Ok(FirstFav)
              && s.favorites == old(s.favorites)[requester := Favorites(requester, [boardId])]
    ensures boardId in s.boards && requester in s.boards[boardId].followers &&
            requester in old(s.favorites) ==>
              var favs := old(s.favorites)[requester].favorites;
              && r == Ok(if boardId in favs then FavRemoved else FavAdded)
              && s.favorites == old(s.favorites)[requester := Favorites(requester, Toggle(favs, boardId))]
  {
    if boardId !in s.boards {
      return Err(BoardNotFound);
    }
    if requester !in s.boards[boardId].followers {
      return Err(NotAFollower);
    }
    if requester !in s.favorites {
      s.favorites := s.favorites[requester := Favorites(requester, [boardId])];
      return Ok(FirstFav);
    }
    var favs := s.favorites[requester];
    ToggleNoDup(favs.favorites, boardId);
    if boardId in favs.favorites {
      r := Ok(FavRemoved);
    } else {
      r := Ok(FavAdded);
    }
    s.favorites := s.favorites[requester := favs.(favorites := Toggle(favs.favorites, boardId))];
  }

  /** Toggling an unlisted board twice gives back exactly the original list. */
  lemma ToggleTwiceUnlisted(favs: seq<Id>, boardId: Id)
    requires boardId !in favs
    ensures Toggle(Toggle(favs, boardId), boardId) == favs
  {
  }

  /** Toggling a listed board twice, on a duplicate-free list, gives back the
      same entries (as a multiset) with the board moved to the end. */
  lemma ToggleTwiceListed(favs: seq<Id>, boardId: Id)
    requires boardId in favs && NoDup(favs)
    ensures Toggle(Toggle(favs, boardId), boardId) == RemoveFirst(favs, boardId) + [boardId]
    ensures multiset(Toggle(Toggle(favs, boardId), boardId)) == multiset(favs)
  {
    RemoveFirstNoDup(favs, boardId);
    RemoveFirstMultiset(favs, boardId);
  }

  /** So exact list restoration fails for a listed board that is not last:
      ["a", "b"] toggled twice on "a" is ["b", "a"]. */
  lemma ToggleTwiceReorders()
    ensures Toggle(Toggle(["a", "b"], "a"), "a") == ["b", "a"]
  {
    assert IndexOf(["a", "b"], "a") == 0;
    assert Toggle(["a", "b"], "a") == ["b"];
  }

  /** The toggle keeps a duplicate-free list duplicate-free, and afterwards the
      board is listed exactly when it was not listed before. */
  lemma ToggleNoDup(favs: seq<Id>, boardId: Id)
    requires NoDup(favs)
    ensures NoDup(Toggle(favs, boardId))
    ensures boardId in Toggle(favs, boardId) <==> boardId !in favs
  {
  }
}
