# Kanban board backend: the store handlers, modelled in Dafny

This project models the request handlers of a kanban-style backend: users own
boards, split them into lanes ("raias"), put cards in lanes, ask to follow
other users' boards through join requests ("aceptances"), and keep a
favorites list of boards. Every handler reads and writes one document store.

- `documents.dfy` (module `Documents`): the records (`Board`, `Raia`, `Card`,
  `Favorites`, `Aceptance`), the error kinds (one per distinct message of the
  handlers, an enum instead of strings), the `Result` type, and the store
  itself, the class `Store`. Boards, lanes and cards are maps from id to
  record. Favorites records are kept under the user id they carry. Join
  requests are a sequence in the collection's natural order, because
  `deleteOne` removes the first match and the owner's list is built in that
  order. The local user collection is a set that no handler writes.
  `Store.Valid()` is the invariant every handler keeps: no owner has two
  boards of one name, a user has at most one Favorites record and it lists a
  board at most once, no join request is stored twice, every board's owner
  is among its followers, and every join request names a stored board and
  that board's owner.
- `sequences.dfy` (module `Sequences`): the array operations the handlers
  use on id lists: `includes`, `indexOf` and `splice(indexOf(x), 1)`.
- `raia.dfy`, `favorites.dfy`, `aceptance.dfy`, `card.dfy`, `board.dfy`: one
  module per controller. Each handler is one method that runs atomically on
  the store. Its `modifies` clause names the collections it may write, so
  every other collection is unchanged by construction. The method returns
  `Ok` with the success value, or `Err` with the error kind. Queries that
  only read are functions.
- `scenarios.dfy`: two client runs of the join workflow, with what the
  handler contracts let a caller conclude.

Modelling choices:

- Ids are strings. Handlers only compare them and test them for being empty.
- A new document's id comes from the database's id generator. It is a
  parameter `newId`, and the method requires it to be unused in its
  collection.
- In the card handlers, two board lookups use Mongo query operators whose
  matching is not modelled. Each is a function-typed parameter
  (`boardAccepts`, `boardAdmits`), so the contracts hold whatever those
  lookups decide.
- JavaScript's `x || old` in `updateCard` is modelled by its truthiness
  rules. A string is falsy when empty. A number is falsy when 0. An
  undefined field is falsy. An array is always truthy, even when empty.
- In a stored card, `tags` and `users` default to `[]` when the request
  omits them. This is Mongoose's default for array paths.

Where the code does something other than it appears meant to do, the model follows the code:

- Creating or renaming a lane never checks that the board or lane exists.
  The check tests a query object that was never awaited, and such an object
  is always truthy.
- Deleting a lane that does not exist deletes nothing. The handler returns
  an error value without throwing it, so nothing is committed and no
  response is sent.
- `deleteBoard` never deletes anything: every call fails.
- Deleting a card leaves its id in the lanes that list it.
- `updateCard` validates a lane move but never performs it.
- Responding to a join request does not check that the caller owns the
  board. It does not check that a pending request exists. An accepted guest
  is appended to the followers without a duplicate check, so a second yes
  succeeds and lists the guest twice (`Scenarios.RespondTwiceScenario`).
- The `shared` filter lists every board the user owns or follows, owned
  boards included. The `fav` filter tests the board's own `favorito` flag,
  not the user's Favorites record.
- Toggling a favorite twice restores the list exactly only when the board
  was not listed before. When it was listed, the two toggles move it to the
  end of the list (`FavoritesController.ToggleTwiceListed`,
  `FavoritesController.ToggleTwiceReorders`).

## Model

| member | source | states |
|---|---|---|
| `Sequences.IndexOf` | src/resources/controllers/raia/raiaController.ts:204 | `indexOf` of a listed id is a position holding it, and no earlier position holds it |
| `Sequences.RemoveFirst` | src/resources/controllers/raia/raiaController.ts:204 | `splice(indexOf(x), 1)` on a list that includes x: one entry shorter, the entries before the first x stay in place, and the entries after it move up one place |
| `Sequences.RemoveFirstMultiset` | src/resources/controllers/raia/raiaController.ts:204 | splicing out the first occurrence shortens the list by one and takes exactly one copy of the id out of its multiset |
| `Sequences.RemoveFirstKeepsOthers` | src/resources/controllers/favorites/favoritesController.ts:61 | any other id is listed after the splice exactly when it was listed before |
| `Sequences.RemoveFirstNoDup` | src/resources/controllers/favorites/favoritesController.ts:59-62 | on a duplicate-free list the spliced id disappears completely and the list stays duplicate-free |
| `Sequences.AppendNoDup` | src/resources/controllers/favorites/favoritesController.ts:63-66 | pushing an absent id keeps a duplicate-free list duplicate-free |
| `RaiaController.CreateNewRaia` | src/resources/controllers/raia/raiaController.ts:41-53 | always succeeds, with no effective board check. It inserts the lane under a fresh id with the given title and board, `users = [requester]` and no cards |
| `RaiaController.ReadRaia` | src/resources/controllers/raia/raiaController.ts:74 | returns exactly the lanes whose `users` contain the requester, with their stored records |
| `RaiaController.UpdateRaia` | src/resources/controllers/raia/raiaController.ts:88-112 | an empty id gives ParamNotFound. Otherwise it succeeds: only the matching lane's title changes, and a missing id changes nothing |
| `RaiaController.DeleteRaia` | src/resources/controllers/raia/raiaController.ts:132-149 | an empty id gives ParamNotFound. A missing lane gives IdNotFound and nothing is deleted. Otherwise exactly the cards listed in the lane, then the lane, are deleted |
| `RaiaController.ExchangeAllowed` | src/resources/controllers/raia/raiaController.ts:193-197 | true exactly when the requester is a user of both lanes and the card is listed in the sending lane, in which case splicing it out shortens that list by one |
| `RaiaController.ExchangeCards` | src/resources/controllers/raia/raiaController.ts:184-210 | RaiasNotFound if either lane is missing. NotAllowedOrCardNotFound if the requester is not a user of both lanes or the card is not in the sending lane. Either error leaves the lanes unchanged. Two found lanes that pass the three checks always give success, and success happens only then. On success with distinct lanes the card is appended to the destination and its first occurrence removed from the sending lane, the two lanes' combined multiset of card ids is unchanged, and no title, board, users or other lane changes |
| `RaiaController.ExchangeMovesOnce` | src/resources/controllers/raia/raiaController.ts:202-205 | after the move the card has left the sending lane exactly when that lane listed it once |
| `FavoritesController.Toggle` | src/resources/controllers/favorites/favoritesController.ts:59-66 | a listed board loses one copy (splice), an unlisted board is pushed onto the end, and no other board's membership changes |
| `FavoritesController.CreateNewFav` | src/resources/controllers/favorites/favoritesController.ts:36-73 | BoardNotFound for an unknown board, NotAFollower for a requester outside its followers, and in both cases no record changes. The first favorite creates `[boardId]`. A listed board is spliced out (FavRemoved), an unlisted one appended (FavAdded). Only the requester's record changes |
| `FavoritesController.ToggleTwiceUnlisted` | src/resources/controllers/favorites/favoritesController.ts:59-66 | toggling an unlisted board twice gives back exactly the original list |
| `FavoritesController.ToggleTwiceListed` | src/resources/controllers/favorites/favoritesController.ts:59-66 | toggling a listed board twice on a duplicate-free list restores the multiset of entries and moves the board to the end |
| `FavoritesController.ToggleTwiceReorders` | src/resources/controllers/favorites/favoritesController.ts:59-66 | concrete case: `["a","b"]` toggled twice on `"a"` is `["b","a"]`, so the list order is not restored |
| `FavoritesController.ToggleNoDup` | src/resources/controllers/favorites/favoritesController.ts:59-66 | a toggle keeps the list duplicate-free and flips whether the board is listed |
| `AceptanceController.FirstMatch` | src/resources/controllers/aceptance/aceptanceController.ts:170-173 | the position of the first request matching (board, guest) in natural order: no earlier request matches, and the position is the length of the list when none matches |
| `AceptanceController.DeleteOne` | src/resources/controllers/aceptance/aceptanceController.ts:170-173 | when no request matches (board, guest) the list is unchanged. Otherwise the request at the first matching position is removed, every other request keeps its order, and no request appears that was not there |
| `AceptanceController.DeleteOneCounts` | src/resources/controllers/aceptance/aceptanceController.ts:170-173 | with no request matching (board, guest) nothing is removed, and with one the collection is exactly one request shorter |
| `AceptanceController.DeleteOneNoDup` | src/resources/controllers/aceptance/aceptanceController.ts:170-173 | deleting a request keeps the collection free of duplicate requests |
| `AceptanceController.OneRequestPerPair` | src/resources/controllers/aceptance/aceptanceController.ts:62-66 | in a valid store no two pending requests share (board, guest), because each request's owner is its board's owner and the triples are unique |
| `AceptanceController.CreateNewAceptanceCall` | src/resources/controllers/aceptance/aceptanceController.ts:39-73 | ParamNotFound for an empty board id, BoardNotFound for a missing board, AlreadyFollowing for a follower, RequestAlreadySent if (board, requester, owner) is already pending. On every error no request is created. Otherwise one request with `ownerId = board.owner` is appended, and at most one request per triple is kept |
| `AceptanceController.RequestsTo` | src/resources/controllers/aceptance/aceptanceController.ts:106-108 | the owner's requests are exactly the stored requests whose `ownerId` is the owner |
| `AceptanceController.GetAllAceptanceCall` | src/resources/controllers/aceptance/aceptanceController.ts:106-119 | the two id lists have the length of the owner's request list, and entry i is request i's boardId / guestId. The boards returned are exactly the stored boards those ids name |
| `AceptanceController.ResponseAceptanceCall` | src/resources/controllers/aceptance/aceptanceController.ts:165-185 | a missing board is an error: no request is deleted and no follower added. Otherwise the first request matching (board, guest) is deleted whatever the answer. A yes appends the guest to the end of `followers` with no duplicate check, and a no leaves `followers` unchanged |
| `CardController.Merge` | src/resources/controllers/card/cardController.ts:212-217 | each of title, subtitle, dateEnd, tags, priority and users takes the supplied value when it is truthy and keeps the old value otherwise, and `board` is untouched |
| `CardController.MergeFields` | src/resources/controllers/card/cardController.ts:212-217 | the JavaScript edge cases of `supplied \|\| old`: an empty string, 0 or an absent field keeps the old value, and a supplied empty array replaces the old list |
| `CardController.MergeNothingSupplied` | src/resources/controllers/card/cardController.ts:209-219 | an update with no truthy field leaves the card unchanged |
| `CardController.MergeIdempotent` | src/resources/controllers/card/cardController.ts:209-219 | applying the same update twice equals applying it once |
| `CardController.NewCard` | src/resources/controllers/card/cardController.ts:66-73 | the stored card carries the supplied title, subtitle, dateEnd and priority, tags and users default to `[]` when omitted, and `board` is unset |
| `CardController.CreateNewCard` | src/resources/controllers/card/cardController.ts:46-80 | RaiaNotFound for a missing lane and UserCannotBeAdded when the board lookup rejects; neither creates a card or changes a lane. Otherwise the card with the supplied fields is inserted under a fresh id, its id is appended to that lane's cards, and no other lane changes |
| `CardController.DeleteCard` | src/resources/controllers/card/cardController.ts:104-117 | UserNotFound and ParamNotFound change nothing. Otherwise only the card record is removed, and the lanes, outside the frame, keep the dangling id |
| `CardController.UpdateCard` | src/resources/controllers/card/cardController.ts:159-225 | errors come in the order the handler checks them: ParamNotFound, UserNotFound, UserNotMemberOfBoard (users supplied and the board lookup rejects), CardCannotBeUpdated, then for a requested move RaiasNotFound and NotAllowedOrCardNotFound. An error changes nothing. Success writes exactly the merged card, and no lane is ever modified |
| `BoardController.CreateNewBoard` | src/resources/controllers/board/boardController.ts:40-72 | UserNotFound for an unknown requester. BoardAlreadyExists if the requester already owns a board of that name, with no board created. Otherwise a board with `owner = requester`, `followers = [requester]` and the supplied nome/cor/icon/favorito is inserted, and no owner ever has two boards of one name |
| `BoardController.ListMyBoard` | src/resources/controllers/board/boardController.ts:80-110 | an empty parameter or `all` gives the boards the user owns. `fav` gives the owned boards with `favorito`. `shared` gives the boards the user owns or follows. Any other parameter is UnknownParam |
| `BoardController.ListFiltersNested` | src/resources/controllers/board/boardController.ts:84-103 | result(fav) ⊆ result(all) ⊆ result(shared), and the empty parameter lists the same boards as `all` |
| `BoardController.GetThisBoard` | src/resources/controllers/board/boardController.ts:147-159 | returns exactly the cards whose `board` is the id and whose `users` contain the requester. An empty id is ParamNotFound |
| `BoardController.GetThisBoardEmpty` | src/resources/controllers/board/boardController.ts:154-157 | when no card has a `board`, which holds of every card the handlers create or update, the query returns no cards |
| `BoardController.DeleteBoard` | src/resources/controllers/board/boardController.ts:122-141 | every call fails: UserNotFound, ParamNotFound, or the thrown TypeError's SomethingWentWrong. It has no `modifies` clause, so the store never changes |
| `Scenarios.AcceptedJoin` | src/resources/controllers/aceptance/aceptanceController.ts:55-185 | after board creation, a join request and a yes, the store is valid, board B1's followers are `[U1, U2]` and no request is pending |
| `Scenarios.JoinScenario` | src/resources/controllers/aceptance/aceptanceController.ts:55-185 | U1 creates a board, U2 asks to join and is accepted: the followers are `[U1, U2]` and no request is pending |
| `Scenarios.RespondTwiceScenario` | src/resources/controllers/aceptance/aceptanceController.ts:165-181 | a second yes for the same guest still succeeds, and the followers become `[U1, U2, U2]` |

## Left out

- RaiaController.ExchangeCards: when both lane ids are the same, the contract leaves that lane's card list unspecified. The handler then loads two separate copies of the lane and saves both without awaiting either, so the outcome depends on which save lands last. The lane set, titles, board ids, users and every other lane are still specified.
- AceptanceController.RequestsTo: the contract states which requests are returned, not that they keep the collection's order; the function itself keeps the order.
- Login (`loginController.ts`): identity-service HTTP calls, token generation, and the shared client's default headers are I/O and foreign calls. The client module `bauth.ts` is left out for the same reason.
- The identity-service `/user/list` call in `getAllAceptanceCall` is I/O. Besides, the handler imports `{ bauth }` while `bauth.ts` has only a default export, so as written `bauth.post` is undefined, the call throws a TypeError, and the handler answers 'Something went wrong' (if the file compiles at all). The board-name character list it builds is never returned, so it is left out too.
- AceptanceController.GetAllAceptanceCall: models what the handler computes before the `/user/list` call, and returns it as a success; because of the import above, the handler as written answers 'Something went wrong' instead.
- Express and Mongo bootstrap and route mounting (`app.ts`, `index.ts`). Only the login, board and card controllers are mounted. The lane, favorites and join-request handlers are modelled anyway, as logic.
- Sessions and transactions: each handler is one atomic step. The order in which un-awaited saves land is not modelled, apart from the same-lane exchange above.
- Request parsing and HTTP status codes: handlers take typed inputs. In `createNewCard` the error path calls the response a second time after the first `json`, and that second call throws; that is not modelled.
- Error messages: several kinds the model keeps apart reach the client as the same catch-all text. In `responseAceptanceCall` every error does. In `updateCard` the board and lane errors do.
- ObjectId-versus-string casting in `includes` and in queries: ids are compared as plain values.
- The matching semantics of the board lookups in `createNewCard` and `updateCard`: they are uninterpreted function parameters.
- The user check in `createNewCard` uses `find`, whose result is always truthy. It can never fail, so it does not appear in the model.
- Mongoose schema stripping: the card schema declares neither `priority` nor `board`. The model stores `priority` as the handler passes it, and leaves `board` unset as the handler does. No handler ever sets a card's `board`, so in every store the handlers build `getThisBoard` returns no cards (`BoardController.GetThisBoardEmpty`). The model takes Mongoose to keep the query's `board` filter even though the path is undeclared; if the filter were dropped, the query would instead return every card listing the user.
- `priority` is a JavaScript number. The model uses an integer, so NaN and fractions are left out.
- The local user collection is read as a fixed set, because no modelled handler writes it.
- Board update, cascading board delete, the board-detail view and the user-deletion cleanup are not implemented by these handlers, so they are not part of this model.
