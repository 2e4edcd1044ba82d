/** The lane ("raia") handlers: create, list, rename, cascading delete, and
    moving a card id from one lane's list to another's. */
module RaiaController {
  import opened Sequences
  import opened Documents

  /** createNewRaia. The board "existence check" of the handler tests a query
      object that was never awaited, which is always truthy, so the handler
      never reports a missing board; `newId` is the id the store assigns. */
  method CreateNewRaia(s: Store, requester: Id, title: string, board: Id, newId: Id)
    returns (r: Result<Id>)
    requires newId !in s.raias
    modifies s`raias
    ensures r == Ok(newId)
    ensures s.raias == old(s.raias)[newId := Raia(title, board, [requester], [])]
  {
    s.raias := s.raias[newId := Raia(title, board, [requester], [])];
    r := Ok(newId);
  }

  /** readRaia: the lanes the requester is a user of. */
  function ReadRaia(s: Store, requester: Id): (r: map<Id, Raia>)
    reads s
    ensures forall id :: id in r <==> id in s.raias && requester in s.raias[id].users
    ensures forall id :: id in r ==> r[id] == s.raias[id]
  {
    map id | id in s.raias && requester in s.raias[id].users :: s.raias[id]
  }

  /** updateRaia: renames the lane. The existence check is, as in
      createNewRaia, on an un-awaited query and never fails, so a missing id
      reports success and changes nothing. */
  method UpdateRaia(s: Store, id: Id, title: string) returns (r: Result<()>)
    modifies s`raias
    ensures id == "" ==> r == Err(ParamNotFound) && s.raias == old(s.raias)
    ensures id != "" ==> r == Ok(())
    ensures id != "" && id !in old(s.raias) ==> s.raias == old(s.raias)
    ensures id != "" && id in old(s.raias) ==>
              s.raias == old(s.raias)[id := old(s.raias)[id].(title := title)]
  {
    if id == "" {
      return Err(ParamNotFound);
    }
    if id in s.raias {
      s.raias := s.raias[id := s.raias[id].(title := title)];
    }
    r := Ok(());
  }

  /** deleteRaia: deletes every card listed in the lane, then the lane. On a
      missing lane the handler returns an Error value instead of throwing it:
      nothing is deleted and no transaction is committed. */
  method DeleteRaia(s: Store, id: Id) returns (r: Result<()>)
    modifies s`raias, s`cards
    ensures id == "" ==> r == Err(ParamNotFound)
    ensures id != "" && id !in old(s.raias) ==> r == Err(IdNotFound)
    ensures r.Err? ==> s.raias == old(s.raias) && s.cards == old(s.cards)
    ensures id != "" && id in old(s.raias) ==>
              && r == Ok(())
              && s.raias == old(s.raias) - {id}
              && s.cards == old(s.cards) - Elements(old(s.raias)[id].cards)
  {
    if id == "" {
      return Err(ParamNotFound);
    }
    if id !in s.raias {
      return Err(IdNotFound);
    }
    var raia := s.raias[id];
    s.cards := s.cards - Elements(raia.cards);
    s.raias := s.raias - {id};
    r := Ok(());
  }

  /** The membership checks exchangeCards makes once both lanes are found:
      the requester is a user of both lanes and the card is listed in the
      sending lane, so the splice that follows has an entry to remove. */
  function ExchangeAllowed(from: Raia, to: Raia, requester: Id, cardId: Id): (allowed: bool)
    ensures allowed ==> requester in from.users && requester in to.users
    ensures allowed ==> cardId in from.cards && |RemoveFirst(from.cards, cardId)| == |from.cards| - 1
    ensures !allowed ==> requester !in from.users || requester !in to.users || cardId !in from.cards
  {
    if requester in from.users && requester in to.users && cardId in from.cards then
      RemoveFirstMultiset(from.cards, cardId);
      true
    else false
  }

  /** exchangeCards: appends `cardId` to the destination lane and removes its
      first occurrence from the sending lane. When both ids name the same lane
      the handler loads and saves two independent copies of it without awaiting
      either save, so the resulting card list is left unspecified then. */
  method ExchangeCards(s: Store, requester: Id, fromRaiaId: Id, toRaiaId: Id, cardId: Id)
    returns (r: Result<()>)
    modifies s`raias
    ensures fromRaiaId !in old(s.raias) || toRaiaId !in old(s.raias) ==>
              r == Err(RaiasNotFound)
    ensures fromRaiaId in old(s.raias) && toRaiaId in old(s.raias) &&
            !ExchangeAllowed(old(s.raias)[fromRaiaId], old(s.raias)[toRaiaId], requester, cardId) ==>
              r == Err(NotAllowedOrCardNotFound)
    ensures fromRaiaId in old(s.raias) && toRaiaId in old(s.raias) &&
            ExchangeAllowed(old(s.raias)[fromRaiaId], old(s.raias)[toRaiaId], requester, cardId) ==>
              r == Ok(())
    ensures r.Err? ==> s.raias == old(s.raias)
    ensures r.Ok? ==>
              && fromRaiaId in old(s.raias) && toRaiaId in old(s.raias)
              && ExchangeAllowed(old(s.raias)[fromRaiaId], old(s.raias)[toRaiaId], requester, cardId)
    // the lane set, every other lane, and every lane's title, board and users stay as they were
    ensures s.raias.Keys == old(s.raias).Keys
    ensures forall id :: id in s.raias && id != fromRaiaId && id != toRaiaId ==>
              s.raias[id] == old(s.raias)[id]
    ensures forall id :: id in s.raias ==>
              && s.raias[id].title == old(s.raias)[id].title
              && s.raias[id].board == old(s.raias)[id].board
              && s.raias[id].users == old(s.raias)[id].users
    ensures r.Ok? && fromRaiaId != toRaiaId ==>
              && s.raias[toRaiaId].cards == old(s.raias)[toRaiaId].cards + [cardId]
              && s.raias[fromRaiaId].cards == RemoveFirst(old(s.raias)[fromRaiaId].cards, cardId)
    ensures r.Ok? && fromRaiaId != toRaiaId ==>
              multiset(s.raias[fromRaiaId].cards) + multiset(s.raias[toRaiaId].cards)
              == multiset(old(s.raias)[fromRaiaId].cards) + multiset(old(s.raias)[toRaiaId].cards)
  {
    if fromRaiaId !in s.raias || toRaiaId !in s.raias {
      return Err(RaiasNotFound);
    }
    var raiaEnvia := s.raias[fromRaiaId];
    var raiaRecebe := s.raias[toRaiaId];
    if !ExchangeAllowed(raiaEnvia, raiaRecebe, requester, cardId) {
      return Err(NotAllowedOrCardNotFound);
    }
    RemoveFirstMultiset(raiaEnvia.cards, cardId);
    var received := raiaRecebe.(cards := raiaRecebe.cards + [cardId]);
    var sent := raiaEnvia.(cards := RemoveFirst(raiaEnvia.cards, cardId));
    s.raias := s.raias[toRaiaId := received][fromRaiaId := sent];
    r := Ok(());
  }

  /** After a move the card has left the sending lane's list exactly when that
      list held it once: only the first occurrence is spliced out. */
  lemma ExchangeMovesOnce(from: seq<Id>, cardId: Id)
    requires cardId in from
    ensures cardId !in RemoveFirst(from, cardId) <==> multiset(from)[cardId] == 1
  {
    RemoveFirstMultiset(from, cardId);
    var rest := RemoveFirst(from, cardId);
    assert cardId in rest <==> multiset(rest)[cardId] > 0;
  }
}
