/** The document store the controllers read and write: one collection per
    model (boards, raias, cards, favorites, aceptances) plus the local user
    collection, which the modelled handlers only consult. */
module Documents {
  import opened Sequences

  /** Ids (Mongo ObjectIds and the strings that carry them) are opaque; the
      handlers only compare them and test them for being empty. */
  type Id = string

  datatype Option<T> = None | Some(value: T)

  /** The error a handler reports, one kind per distinct message of the handlers. */
  datatype Error =
    | ParamNotFound              // 'Param not found'
    | UserNotFound               // 'User not found'
    | BoardNotFound              // 'Board not found'
    | RaiaNotFound               // 'Raia not found'
    | IdNotFound                 // deleteRaia's 'ID not found', returned rather than thrown
    | RaiasNotFound              // 'Unable to continue due one or both raias not found'
    | NotAllowedOrCardNotFound   // 'Unable to continue due user not allowed or card not found'
    | NotAFollower               // 'User is not allowed to fav this board, must be a follower first'
    | AlreadyFollowing           // 'User already following this board'
    | RequestAlreadySent         // 'Aceptance request already sended'
    | UserCannotBeAdded          // 'User cannot be add'
    | UserNotMemberOfBoard       // 'User is not member of board'
    | CardCannotBeUpdated        // 'Card cannot be updated'
    | BoardAlreadyExists         // 'Board already exists'
    | UnknownParam               // 'Unknown param; It can only be: all, shared or fav'
    | SomethingWentWrong         // the catch-all for any other exception

  datatype Result<T> = Ok(value: T) | Err(error: Error)

  datatype Board = Board(nome: string, cor: string, icon: string, favorito: bool,
                         owner: Id, followers: seq<Id>)

  /** A lane ("raia") of a board; `cards` is the ordered list of card ids. */
  datatype Raia = Raia(title: string, board: Id, users: seq<Id>, cards: seq<Id>)

  /** Optional fields a request may leave undefined are `Option`s; the array
      fields are never undefined in a stored card (an array path defaults to []). */
  datatype Card = Card(title: string, subtitle: Option<string>, dateEnd: Option<string>,
                       tags: seq<string>, users: seq<Id>, priority: Option<int>,
                       board: Option<Id>)

  datatype Favorites = Favorites(userId: Id, favorites: seq<Id>)

  /** A pending request of `guestId` to follow board `boardId` owned by `ownerId`. */
  datatype Aceptance = Aceptance(boardId: Id, guestId: Id, ownerId: Id)

  /** No two boards of one owner share a name. */
  ghost predicate UniqueBoardNames(boards: map<Id, Board>) {
    forall a, b :: a in boards && b in boards && a != b && boards[a].owner == boards[b].owner
      ==> boards[a].nome != boards[b].nome
  }

  /** A board's owner is always among its followers: createNewBoard starts
      the list with the owner, and followers are only ever appended to. */
  ghost predicate OwnersFollow(boards: map<Id, Board>) {
    forall b :: b in boards ==> boards[b].owner in boards[b].followers
  }

  /** Every pending request names a stored board and carries that board's
      owner as its `ownerId`. */
  ghost predicate RequestsOfBoards(boards: map<Id, Board>, aceptances: seq<Aceptance>) {
    forall a :: a in aceptances ==> a.boardId in boards && a.ownerId == boards[a.boardId].owner
  }

  /** Replacing a board by one with the same name and owner keeps the names
      of each owner's boards unique. */
  lemma UniqueBoardNamesUpdate(boards: map<Id, Board>, id: Id, b: Board)
    requires UniqueBoardNames(boards) && id in boards
    requires b.nome == boards[id].nome && b.owner == boards[id].owner
    ensures UniqueBoardNames(boards[id := b])
  {
  }

  /** ... and, when the owner stays among the followers, keeps the owners
      following and the requests addressed to their boards' owners. */
  lemma BoardUpdateKeepsOwners(boards: map<Id, Board>, aceptances: seq<Aceptance>, id: Id, b: Board)
    requires OwnersFollow(boards) && RequestsOfBoards(boards, aceptances) && id in boards
    requires b.owner == boards[id].owner && b.owner in b.followers
    ensures OwnersFollow(boards[id := b])
    ensures RequestsOfBoards(boards[id := b], aceptances)
  {
  }

  /** Dropping requests keeps the remaining ones addressed to their boards' owners. */
  lemma RequestsOfBoardsSubset(boards: map<Id, Board>, reqs: seq<Aceptance>, r: seq<Aceptance>)
    requires RequestsOfBoards(boards, reqs) && multiset(r) <= multiset(reqs)
    ensures RequestsOfBoards(boards, r)
  {
    forall a | a in r ensures a.boardId in boards && a.ownerId == boards[a.boardId].owner {
      assert a in multiset(r);
      assert a in reqs;
    }
  }

  /** Some board of `owner` is already called `nome`. */
  predicate NameTaken(boards: map<Id, Board>, nome: string, owner: Id) {
    exists id :: id in boards && boards[id].nome == nome && boards[id].owner == owner
  }

  /** Each user has at most one Favorites record, found under the user's id,
      and a favorites list names each board at most once. */
  ghost predicate FavoritesByUser(favorites: map<Id, Favorites>) {
    forall u :: u in favorites ==> favorites[u].userId == u && NoDup(favorites[u].favorites)
  }

  class Store {
    /** The local user collection; no modelled handler writes it. */
    var users: set<Id>
    var boards: map<Id, Board>
    var raias: map<Id, Raia>
    var cards: map<Id, Card>
    /** Favorites records, keyed by the `userId` they carry. */
    var favorites: map<Id, Favorites>
    /** Pending requests in the collection's natural (insertion) order. */
    var aceptances: seq<Aceptance>

    /** What every handler keeps: findOne({nome, owner}) and
        findOne({boardId, guestId, ownerId}) can each match only one document,
        every user has at most one Favorites record, without repeats, every
        owner follows its own boards, and every request is about a stored
        board and addressed to its owner. */
    ghost predicate Valid()
      reads this
    {
      && UniqueBoardNames(boards)
      && FavoritesByUser(favorites)
      && NoDup(aceptances)
      && OwnersFollow(boards)
      && RequestsOfBoards(boards, aceptances)
    }

    constructor (users: set<Id>)
      ensures Valid()
      ensures this.users == users
      ensures boards == map[] && raias == map[] && cards == map[]
      ensures favorites == map[] && aceptances == []
    {
      this.users := users;
      boards, raias, cards := map[], map[], map[];
      favorites, aceptances := map[], [];
    }
  }
}
