/** The card handlers: create a card inside a lane, delete a card, and the
    partial update whose fields follow JavaScript's `supplied || old`. */
module CardController {
  import opened Documents
  import opened RaiaController

  /** JavaScript truthiness of the request fields `x || old` looks at: a
      string is falsy when empty, a number when zero, and an undefined field
      always; an array is truthy even when empty. */
  predicate TruthyString(x: Option<string>) { x.Some? && x.value != "" }
  predicate TruthyNumber(x: Option<int>) { x.Some? && x.value != 0 }
  predicate TruthyArray<T>(x: Option<seq<T>>) { x.Some? }

  /** The optional fields of an updateCard request body. */
  datatype CardPatch = CardPatch(title: Option<string>, subtitle: Option<string>,
                                 dateEnd: Option<string>, tags: Option<seq<string>>,
                                 priority: Option<int>, users: Option<seq<Id>>)

  /** A patch none of whose fields is truthy. */
  predicate NothingSupplied(p: CardPatch) {
    !TruthyString(p.title) && !TruthyString(p.subtitle) && !TruthyString(p.dateEnd)
    && !TruthyArray(p.tags) && !TruthyNumber(p.priority) && !TruthyArray(p.users)
  }

  /** The update document of updateCard: each field is `supplied || old`,
      so a truthy supplied value replaces the field and anything else keeps
      it; the card's `board` is not part of the update. */
  function Merge(card: Card, p: CardPatch): (r: Card)
    ensures TruthyString(p.title) ==> r.title == p.title.value
    ensures !TruthyString(p.title) ==> r.title == card.title
    ensures TruthyString(p.subtitle) ==> r.subtitle == p.subtitle
    ensures !TruthyString(p.subtitle) ==> r.subtitle == card.subtitle
    ensures TruthyString(p.dateEnd) ==> r.dateEnd == p.dateEnd
    ensures !TruthyString(p.dateEnd) ==> r.dateEnd == card.dateEnd
    ensures TruthyArray(p.tags) ==> r.tags == p.tags.value
    ensures !TruthyArray(p.tags) ==> r.tags == card.tags
    ensures TruthyNumber(p.priority) ==> r.priority == p.priority
    ensures !TruthyNumber(p.priority) ==> r.priority == card.priority
    ensures TruthyArray(p.users) ==> r.users == p.users.value
    ensures !TruthyArray(p.users) ==> r.users == card.users
    ensures r.board == card.board
  {
    card.(title := if TruthyString(p.title) then p.title.value else card.title,
          subtitle := if TruthyString(p.subtitle) then p.subtitle else card.subtitle,
          dateEnd := if TruthyString(p.dateEnd) then p.dateEnd else card.dateEnd,
          tags := if TruthyArray(p.tags) then p.tags.value else card.tags,
          priority := if TruthyNumber(p.priority) then p.priority else card.priority,
          users := if TruthyArray(p.users) then p.users.value else card.users)
  }

  /** The JavaScript edge cases of `supplied || old`: an empty string, 0 and
      an undefined field keep the old value, while an empty array is truthy
      and replaces the old list. */
  lemma MergeFields(card: Card, p: CardPatch)
    ensures p.title == Some("") || p.title == None ==> Merge(card, p).title == card.title
    ensures p.subtitle == Some("") || p.subtitle == None ==> Merge(card, p).subtitle == card.subtitle
    ensures p.dateEnd == Some("") || p.dateEnd == None ==> Merge(card, p).dateEnd == card.dateEnd
    ensures p.priority == Some(0) || p.priority == None ==> Merge(card, p).priority == card.priority
    ensures p.tags == None ==> Merge(card, p).tags == card.tags
    ensures p.users == None ==> Merge(card, p).users == card.users
    ensures p.tags == Some([]) ==> Merge(card, p).tags == []
    ensures p.users == Some([]) ==> Merge(card, p).users == []
  {
  }

  /** An update with no truthy field leaves the card as it was. */
  lemma MergeNothingSupplied(card: Card, p: CardPatch)
    requires NothingSupplied(p)
    ensures Merge(card, p) == card
  {
  }

  /** Applying the same update twice is the same as applying it once. */
  lemma MergeIdempotent(card: Card, p: CardPatch)
    ensures Merge(Merge(card, p), p) == Merge(card, p)
  {
  }

  /** The card createNewCard stores: the supplied fields as given, undefined
      arrays defaulting to [], and no `board`, which the handler never sets. */
  function NewCard(title: string, subtitle: Option<string>, dateEnd: Option<string>,
                   tags: Option<seq<string>>, users: Option<seq<Id>>,
                   priority: Option<int>): (c: Card)
    ensures c.title == title && c.subtitle == subtitle && c.dateEnd == dateEnd
    ensures c.priority == priority
    ensures c.tags == (if tags.Some? then tags.value else [])
    ensures c.users == (if users.Some? then users.value else [])
    ensures c.board == None
  {
    Card(title, subtitle, dateEnd,
         if tags.Some? then tags.value else [],
         if users.Some? then users.value else [],
         priority, None)
  }

  /** createNewCard. `boardAccepts(board, users)` is the verdict of the board
      lookup findOne({_id: raia.board, users}), whose matching is not modelled;
      `newId` is the id the store assigns to the new card. */
  method CreateNewCard(s: Store, title: string, subtitle: Option<string>, dateEnd: Option<string>,
                       tags: Option<seq<string>>, users: Option<seq<Id>>, raiaId: Id,
                       priority: Option<int>, boardAccepts: (Id, Option<seq<Id>>) -> bool,
                       newId: Id)
    returns (r: Result<Id>)
    requires newId !in s.cards
    modifies s`cards, s`raias
    ensures raiaId !in old(s.raias) ==> r == Err(RaiaNotFound)
    ensures raiaId in old(s.raias) && !boardAccepts(old(s.raias)[raiaId].board, users) ==>
              r == Err(UserCannotBeAdded)
    ensures r.Err? ==> s.cards == old(s.cards) && s.raias == old(s.raias)
    ensures raiaId in old(s.raias) && boardAccepts(old(s.raias)[raiaId].board, users) ==>
              var raia := old(s.raias)[raiaId];
              && r == Ok(newId)
              && s.cards == old(s.cards)[newId := NewCard(title, subtitle, dateEnd, tags, users, priority)]
              && s.raias == old(s.raias)[raiaId := raia.(cards := raia.cards + [newId])]
  {
    if raiaId !in s.raias {
      return Err(RaiaNotFound);
    }
    var raia := s.raias[raiaId];
    if !boardAccepts(raia.board, users) {
      return Err(UserCannotBeAdded);
    }
    s.cards := s.cards[newId := NewCard(title, subtitle, dateEnd, tags, users, priority)];
    s.raias := s.raias[raiaId := raia.(cards := raia.cards + [newId])];
    r := Ok(newId);
  }

  /** deleteCard: removes the card record only; lanes listing it keep the id. */
  method DeleteCard(s: Store, requester: Id, cardId: Id) returns (r: Result<()>)
    modifies s`cards
    ensures requester !in s.users ==> r == Err(UserNotFound)
    ensures requester in s.users && cardId == "" ==> r == Err(ParamNotFound)
    ensures r.Err? ==> s.cards == old(s.cards)
    ensures requester in s.users && cardId != "" ==>
              r == Ok(()) && s.cards == old(s.cards) - {cardId}
  {
    if requester !in s.users {
      return Err(UserNotFound);
    }
    if cardId == "" {
      return Err(ParamNotFound);
    }
    s.cards := s.cards - {cardId};
    r := Ok(());
  }

  /** updateCard's lane-move validation runs only when both lane ids are truthy. */
  predicate MoveRequested(fromRaiaId: Option<Id>, toRaiaId: Option<Id>) {
    TruthyString(fromRaiaId) && TruthyString(toRaiaId)
  }

  /** Supplied users are checked against the board; the check can only reject. */
  predicate UsersRejected(p: CardPatch, boardId: Option<Id>,
                          boardAdmits: (Option<Id>, seq<Id>, Option<seq<string>>) -> bool) {
    p.users.Some? && !boardAdmits(boardId, p.users.value, p.tags)
  }

  /** updateCard. `boardAdmits(boardId, users, tags)` is the verdict of the
      board lookup on followers and tags, whose matching is not modelled. The
      lane move is validated, with the same checks as exchangeCards, but never
      carried out, so no lane changes (the frame is the cards alone). */
  method UpdateCard(s: Store, requester: Id, cardId: Id, p: CardPatch,
                    fromRaiaId: Option<Id>, toRaiaId: Option<Id>, boardId: Option<Id>,
                    boardAdmits: (Option<Id>, seq<Id>, Option<seq<string>>) -> bool)
    returns (r: Result<()>)
    modifies s`cards
    ensures cardId == "" ==> r == Err(ParamNotFound)
    ensures cardId != "" && requester !in s.users ==> r == Err(UserNotFound)
    ensures cardId != "" && requester in s.users && UsersRejected(p, boardId, boardAdmits) ==>
              r == Err(UserNotMemberOfBoard)
    ensures cardId != "" && requester in s.users && !UsersRejected(p, boardId, boardAdmits) ==>
              if cardId !in old(s.cards) then r == Err(CardCannotBeUpdated)
              else if !MoveRequested(fromRaiaId, toRaiaId) then r == Ok(())
              else if fromRaiaId.value !in s.raias || toRaiaId.value !in s.raias then
                r == Err(RaiasNotFound)
              else if !ExchangeAllowed(s.raias[fromRaiaId.value], s.raias[toRaiaId.value],
                                       requester, cardId) then
                r == Err(NotAllowedOrCardNotFound)
              else r == Ok(())
    ensures r.Err? ==> s.cards == old(s.cards)
    ensures r.Ok? ==>
              && cardId in old(s.cards)
              && s.cards == old(s.cards)[cardId := Merge(old(s.cards)[cardId], p)]
  {
    if cardId == "" {
      return Err(ParamNotFound);
    }
    if requester !in s.users {
      return Err(UserNotFound);
    }
    if UsersRejected(p, boardId, boardAdmits) {
      return Err(UserNotMemberOfBoard);
    }
    if cardId !in s.cards {
      return Err(CardCannotBeUpdated);
    }
    if MoveRequested(fromRaiaId, toRaiaId) {
      if fromRaiaId.value !in s.raias || toRaiaId.value !in s.raias {
        return Err(RaiasNotFound);
      }
      var raiaEnvia := s.raias[fromRaiaId.value];
      var raiaRecebe := s.raias[toRaiaId.value];
      if !ExchangeAllowed(raiaEnvia, raiaRecebe, requester, cardId) {
        return Err(NotAllowedOrCardNotFound);
      }
    }
    s.cards := s.cards[cardId := Merge(s.cards[cardId], p)];
    r := Ok(());
  }
}
