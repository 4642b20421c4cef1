# PokéAPI gateway — Dafny model

A model of the core of a small HTTP gateway over the PokéAPI catalog. The
gateway offers three endpoints:

- `POST /token` checks a username and password against a fixed user table and
  issues the username as a bearer token.
- `GET /pokemon/{name}` checks the bearer token, validates the name, fetches the
  entity from the catalog and returns a summary. The summary holds the shiny
  image, name, type names, weight, height, the `attack` and `defense` stats,
  and the three most powerful moves.
- `GET /generation/{id}` checks the bearer token, fetches a generation and
  returns one page of its species names.

Catalog GETs are parameters of the model:

- `entities` maps a lookup key to the entity reply (HTTP status and decoded body).
- `movePower` maps a move URL to that move's `power` field (`None` for a null power).
- `generations` maps a generation id to the generation reply.

`GetPokemon` also returns the sequence of catalog GETs it issued. That makes
"no GET before the name is validated" and "one GET per listed move, in order"
part of its contract.

Files and modules:

- `wrappers.dfy`: `Wrappers` (Option, Result) and `Math` (Min, Max).
- `errors.dfy`: `Errors`, the HTTP errors the service raises and their status codes.
- `auth.py` → `auth.dfy`: `Auth`, the user table, the stub hash, the user lookup, token decoding and the 401 gate.
- `names.dfy`: `Names`, the alphabetic check and lower-casing applied to entity names.
- `catalog.dfy`: `Catalog`, the shapes of the catalog replies the gateway reads, and the GET log entries.
- `move_ranking.dfy`: `MoveRanking`, the move filter, the stable sort by power and the top-3 cut, with their proofs.
- `pagination.dfy`: `Pagination`, the Python slice and the page window, with their proofs.
- `gateway.dfy`: `Gateway`, the handlers of `main.py`: `Login`, `GetPokemon` with the move loop `ResolveMoves`, and `GetGeneration`.

Two behaviours of the code shape the model:

- The move fetches are awaited one after another (main.py:57-62), and a move
  fetch that fails raises. The model issues the move GETs in listed order
  (`ResolveMoves`), and every move fetch yields a power or `None`.
- The entity fetch checks only for 404 (main.py:47) and decodes every other
  reply, so the model summarises the body of every non-404 reply.

## Model

| member | source | states |
|---|---|---|
| `Errors.StatusCode` | exceptions.py:3-21 | each error has status 400, 401 or 404; the 401s are the login failure and the token gate's inline 401 (auth.py:27-35), and the 404s are the two not-found errors |
| `Auth.FakeHashPassword` | auth.py:13-14 | the hash is the fixed prefix `fakehashed` followed by the whole password |
| `Auth.FakeHashInjective` | auth.py:13-14 | two passwords have the same hash exactly when they are equal |
| `Auth.UsersDbKeyedByUsername` | auth.py:6-11 | every record in the user table is filed under its own username |
| `Auth.GetUser` | auth.py:18-21 | a user is returned exactly when the username is a key of the table, and it is that key's record |
| `Auth.FakeDecodeToken` | auth.py:23-25 | with the fixed table, a token decodes exactly when it is `test`, to the user whose username is the token |
| `Auth.GetCurrentUser` | auth.py:27-35 | the gate fails with a 401 exactly when the token does not decode, and otherwise passes the decoded user |
| `Names.IsAlpha` | main.py:41 | a name is alphabetic when it is non-empty and every character is a letter; its use before any GET is stated by `Gateway.GetPokemon`, and its behaviour under lowering by `Names.LowerKeepsAlpha` |
| `Names.LowerChar` | main.py:43 | lowering yields no upper-case letter, maps each upper-case letter to its lower-case partner, keeps every other character, and keeps letters letters |
| `Names.Lower` | main.py:43 | the lowered name has the same length, and each character is lowered in place |
| `Names.LowerIdempotent` | main.py:43 | lowering twice is the same as lowering once |
| `Names.LowerKeepsAlpha` | main.py:41-43 | a lowered name is alphabetic exactly when the original is, and has no upper-case letter |
| `MoveRanking.KeepPowered` | main.py:63 | the filter yields only moves whose power resolved, each with that power, and every such move is yielded |
| `MoveRanking.KeepPoweredLength` | main.py:63 | the filter keeps exactly as many moves as have a non-null power |
| `MoveRanking.KeepPoweredTies` | main.py:63 | for every power, the filter keeps the listed moves of that power, in listed order |
| `MoveRanking.SortByPowerDesc` | main.py:64 | the stable sort by power, highest first; its properties are stated by `MoveRanking.SortByPowerDescCorrect` and the `Insert…` lemmas |
| `MoveRanking.InsertPermutes` | main.py:64 | one insertion step adds exactly the inserted move |
| `MoveRanking.InsertKeepsOrder` | main.py:64 | inserting into a list sorted by descending power keeps it sorted |
| `MoveRanking.InsertKeepsTies` | main.py:64 | the inserted move lands before the moves of equal power that follow it in the input |
| `MoveRanking.SortByPowerDescCorrect` | main.py:64 | the sort yields a permutation of its input, by power highest first, with equal powers in input order (stable, as Python's `sorted` is) |
| `MoveRanking.TiedNamesPrefix` | main.py:64 | cutting a list to a prefix cuts each power's run of moves to a prefix |
| `MoveRanking.SortedPrefixDominates` | main.py:64 | in a list sorted by descending power, nothing left out of a prefix outranks anything in it |
| `MoveRanking.TopMoves` | main.py:63-64 | filter, sort and cut to three; its properties are stated by the `MoveRanking.TopMoves…` lemma rows below |
| `MoveRanking.TopMovesIsPrefix` | main.py:63-64 | the reported moves are the first `min(3, n)` moves of the sorted filtered list, where n is the number of moves with a power |
| `MoveRanking.TopMovesLength` | main.py:63-64 | `min(3, n)` moves are reported, where n is the number of listed moves with a non-null power |
| `MoveRanking.TopMovesFromListing` | main.py:63-64 | each reported move is a listed move whose power resolved, reported with that power |
| `MoveRanking.TopMovesOrdered` | main.py:64 | the reported powers never increase |
| `MoveRanking.TopMovesStable` | main.py:64 | among moves of one power, the reported ones are the first ones listed, in listed order |
| `MoveRanking.TopMovesDominate` | main.py:63-64 | no move with a power that is left out outranks a reported move |
| `MoveRanking.TopMovesKeepAllFew` | main.py:63-64 | when at most three moves have a power, all of them are reported |
| `MoveRanking.EqualPowersKeepListedOrder` | main.py:63-64 | listed powers 40, null, 90, 90 are reported as the two 90s in listed order, then the 40 |
| `Pagination.Slice` | main.py:97 | a non-negative slice has length `max(0, min(end, n) - start)`, and entry i is list entry `start + i` |
| `Pagination.SliceAppend` | main.py:97 | two slices that meet at a bound concatenate to the slice spanning both |
| `Pagination.PageStart` | main.py:95 | the start index `(page-1)*page_size`; its use is stated by `Pagination.Page`, `Pagination.PagesAdjacent` and `Pagination.PageOf` |
| `Pagination.Page` | main.py:95-97 | a page has length `max(0, min(page_size, n - start))` with `start = (page-1)*page_size`, so it is never longer than page_size; entry i is name `start + i`; it is empty when start ≥ n |
| `Pagination.PagesAdjacent` | main.py:95-97 | page p+1 starts where page p ends: together they are the window of twice the page size |
| `Pagination.FirstPagesArePrefix` | main.py:95-97 | pages 1..k read in order are exactly the first `min(k*page_size, n)` names |
| `Pagination.PageOf` | main.py:95-97 | name j is entry `j mod page_size` of page `j div page_size + 1` |
| `Gateway.Login` | main.py:23-31 | login succeeds exactly when the username is in the table and the hashed password matches the stored hash; otherwise it fails with the authentication error; on success the token is the username and the type is `bearer` |
| `Gateway.LoginAcceptsOnlyTest` | main.py:23-31 | with the fixed table, `test`/`test` is the only credential pair accepted |
| `Gateway.LoginTokenDecodes` | auth.py:23-35 | the token a successful login issues passes the gate as the user who logged in |
| `Gateway.TypeNames` | main.py:52 | the type names have the same length and order as the entity's types |
| `Gateway.StatSubset` | main.py:55 | the stat filter; its properties are stated by `Gateway.StatSubsetMembers` and `Gateway.StatSubsetAppend` |
| `Gateway.StatSubsetMembers` | main.py:55 | the stats kept are exactly the entity's `attack`/`defense` stats, each with its base value |
| `Gateway.StatSubsetAppend` | main.py:55 | the stat filter distributes over concatenation, so it keeps source order |
| `Gateway.ResolveMoves` | main.py:56-62 | the loop yields one candidate per listed move, in listed order, pairing the move's name with the power fetched from its URL; it issues one GET per move in that order |
| `Gateway.SummaryMovesResolved` | main.py:56-64 | each reported move is a listed move with the power its own fetch resolved |
| `Gateway.Summarize` | main.py:50-65 | the summary of an entity record: its type names, stats and moves are stated by `Gateway.TypeNames`, `Gateway.StatSubset…` and `MoveRanking.TopMoves…` rows and by `Gateway.SummaryMovesResolved`; the image, name, weight and height are copied from the record |
| `Gateway.GetPokemon` | main.py:33-65 | a bad token gives a 401 and no GET; a non-alphabetic name (the empty name included) gives the invalid-name error and no GET; otherwise one entity GET under the lower-cased name; a 404 gives not-found with the lower-cased name; any other reply gives the summary, after one move GET per listed move |
| `Gateway.SpeciesNames` | main.py:94 | the species names of a generation in listed order; its use is stated by `Gateway.GetGeneration`, whose entries are the species' names |
| `Gateway.GetGeneration` | main.py:67-99 | a bad token gives a 401; a 404 gives generation-not-found and a 400 gives invalid-generation; otherwise the result is the page of species names, never longer than page_size, with entry i the name at `(page-1)*page_size + i` |

## Left out

- HTTP routing, dependency injection, form and query parsing, the query defaults `page=1` and `page_size=20` (main.py:71-72), which the model does not supply because `GetGeneration` takes both arguments explicitly, and the 422 validation error the framework raises. The page bounds (`page ≥ 1`, `1 ≤ page_size ≤ 100`) are preconditions of `Pagination.Page` and `Gateway.GetGeneration`. The framework's token gate is the first check of each catalog handler.
- The HTTP client, JSON decoding and async/await. Catalog GETs are function parameters. A move fetch that fails at the transport level would raise in the code and is not modelled.
- Entity and generation replies whose status is neither 404 nor (for generations) 400. The code decodes these as if they succeeded. The model takes the reply's body as the decoded payload and does not model a body that fails to decode.
- Error messages. The Spanish detail texts and the `WWW-Authenticate` header are not modelled; each error is a constructor carrying the name or id the message quotes.
- `Names.IsAlpha`: Python's `str.isalpha` and `str.lower` follow Unicode. The model accepts only ASCII letters and lowers only ASCII upper-case letters.
- `UserInDB` (user.py) is not part of this model. It is represented as a record with a username and a hashed password.
- The `oauth2_scheme` objects and the OAuth2 password form are framework plumbing and are left out.
