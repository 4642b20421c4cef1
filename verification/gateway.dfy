/**
 * The request handlers of the gateway: login, the entity summary and the
 * generation listing. Catalog GETs are parameters: `entities` answers the
 * entity GET for a lookup key, `movePower` gives the `power` field of the
 * move resource at a URL (None for a null power), and `generations`
 * answers the generation GET for an id. Every catalog endpoint first passes
 * the bearer token through the authentication gate.
 */
module Gateway {
  import opened Wrappers
  import opened Errors
  import opened Auth
  import opened Names
  import opened Catalog
  import opened MoveRanking
  import opened Pagination

  /** The body a successful login returns. */
  datatype Token = Token(accessToken: string, tokenType: string)

  /** One `{name, value}` entry of a summary's stats. */
  datatype StatValue = StatValue(name: string, value: int)

  /** The body of a successful entity lookup. */
  datatype PokemonSummary = PokemonSummary(
    shinyImage: Option<string>,
    name: string,
    types: seq<string>,
    weight: int,
    height: int,
    stats: seq<StatValue>,
    moves: seq<RankedMove>)

  // ---------------------------------------------------------------- login

  /** Checks a username and password against the user table and issues the username as token. */
  function Login(username: string, password: string): (r: Result<Token, ApiError>)
    ensures r.Success? <==> username in FakeUsersDb && FakeHashPassword(password) == FakeUsersDb[username].hashedPassword
    ensures r.Failure? ==> r.error == AuthenticationFailed
    ensures r.Success? ==> r.value == Token(FakeUsersDb[username].username, "bearer")
  {
    if username !in FakeUsersDb then Failure(AuthenticationFailed)
    else
      var user := FakeUsersDb[username];
      if FakeHashPassword(password) != user.hashedPassword then Failure(AuthenticationFailed)
      else Success(Token(user.username, "bearer"))
  }

  /** With the fixed table, `test`/`test` is the only credential pair accepted. */
  lemma LoginAcceptsOnlyTest(username: string, password: string)
    ensures Login(username, password).Success? <==> username == "test" && password == "test"
  {
    if username == "test" {
      FakeHashInjective(password, "test");
    }
  }

  /** The token a successful login issues passes the gate, as the user who logged in. */
  lemma LoginTokenDecodes(username: string, password: string)
    requires Login(username, password).Success?
    ensures GetCurrentUser(Login(username, password).value.accessToken) == Success(FakeUsersDb[username])
    ensures FakeUsersDb[username].username == username
  {
    UsersDbKeyedByUsername();
  }

  // ------------------------------------------------------- entity summary

  /** The whitelisted stat names a summary keeps. */
  const StatWhitelist: set<string> := {"attack", "defense"}

  function ProjectStat(s: StatEntry): StatValue {
    StatValue(s.stat.name, s.baseStat)
  }

  /** `sv` is the projection of one of `stats`. */
  predicate ProjectedFrom(sv: StatValue, stats: seq<StatEntry>) {
    exists s :: s in stats && ProjectStat(s) == sv
  }

  /** The names of an entity's types. */
  function TypeNames(types: seq<TypeSlot>): (r: seq<string>)
    ensures |r| == |types|
    ensures forall i :: 0 <= i < |types| ==> r[i] == types[i].typeRef.name
  {
    if types == [] then [] else [types[0].typeRef.name] + TypeNames(types[1..])
  }

  /** The stats named `attack` or `defense`, each with its base value, in listed order. */
  function StatSubset(stats: seq<StatEntry>): seq<StatValue> {
    if stats == [] then []
    else (if stats[0].stat.name in StatWhitelist then [ProjectStat(stats[0])] else []) + StatSubset(stats[1..])
  }

  /**
   * The stat filter keeps exactly the whitelisted stats: everything it yields
   * is a whitelisted stat of the entity with its base value, and every
   * whitelisted stat of the entity is yielded.
   */
  lemma {:induction false} StatSubsetMembers(stats: seq<StatEntry>)
    ensures |StatSubset(stats)| <= |stats|
    ensures forall sv :: sv in StatSubset(stats) ==> sv.name in StatWhitelist && ProjectedFrom(sv, stats)
    ensures forall s :: s in stats && s.stat.name in StatWhitelist ==> ProjectStat(s) in StatSubset(stats)
  {
    if stats != [] {
      StatSubsetMembers(stats[1..]);
      var head := if stats[0].stat.name in StatWhitelist then [ProjectStat(stats[0])] else [];
      var rest := StatSubset(stats[1..]);
      assert StatSubset(stats) == head + rest;
      forall sv | sv in StatSubset(stats) ensures sv.name in StatWhitelist && ProjectedFrom(sv, stats) {
        if sv in rest {
          var s :| s in stats[1..] && ProjectStat(s) == sv;
          assert s in stats;
        } else {
          assert sv == ProjectStat(stats[0]);
          assert stats[0] in stats;
        }
      }
      forall s | s in stats && s.stat.name in StatWhitelist ensures ProjectStat(s) in StatSubset(stats) {
        if s != stats[0] {
          assert s in stats[1..];
        }
      }
    }
  }

  /** The stat filter keeps the listed order: it distributes over concatenation. */
  lemma {:induction false} StatSubsetAppend(a: seq<StatEntry>, b: seq<StatEntry>)
    ensures StatSubset(a + b) == StatSubset(a) + StatSubset(b)
  {
    if a == [] {
      assert a + b == b;
    } else {
      var ab := a + b;
      assert ab[0] == a[0];
      assert ab[1..] == a[1..] + b;
      StatSubsetAppend(a[1..], b);
      var head := if a[0].stat.name in StatWhitelist then [ProjectStat(a[0])] else [];
      assert StatSubset(ab) == head + StatSubset(ab[1..]);
      assert StatSubset(a) == head + StatSubset(a[1..]);
    }
  }

  /** One candidate per listed move, in listed order, with the power fetched from its URL. */
  function Candidates(moves: seq<MoveSlot>, movePower: string -> Option<int>): seq<MoveCandidate> {
    seq(|moves|, i requires 0 <= i < |moves| => MoveCandidate(moves[i].move.name, movePower(moves[i].move.url)))
  }

  /** One move GET per listed move, in listed order. */
  function MoveRequests(moves: seq<MoveSlot>): seq<Request> {
    seq(|moves|, i requires 0 <= i < |moves| => MoveGet(moves[i].move.url))
  }

  /**
   * The move loop of the entity lookup: fetches each listed move's resource
   * in turn and appends the move's name with the power it reports.
   */
  method ResolveMoves(moves: seq<MoveSlot>, movePower: string -> Option<int>)
    returns (cands: seq<MoveCandidate>, requests: seq<Request>)
    ensures cands == Candidates(moves, movePower)
    ensures requests == MoveRequests(moves)
  {
    cands, requests := [], [];
    var i := 0;
    while i < |moves|
      invariant 0 <= i <= |moves|
      invariant cands == Candidates(moves[..i], movePower)
      invariant requests == MoveRequests(moves[..i])
    {
      var url := moves[i].move.url;
      requests := requests + [MoveGet(url)];
      var power := movePower(url);
      cands := cands + [MoveCandidate(moves[i].move.name, power)];
      i := i + 1;
    }
    assert moves[..i] == moves;
  }

  /** The summary built from an entity's record and its moves' powers. */
  function Summarize(record: EntityRecord, movePower: string -> Option<int>): PokemonSummary {
    PokemonSummary(
      record.frontShiny,
      record.name,
      TypeNames(record.types),
      record.weight,
      record.height,
      StatSubset(record.stats),
      TopMoves(Candidates(record.moves, movePower)))
  }

  /** Each reported move is a listed move of the entity, reported with the power its own fetch resolved. */
  lemma SummaryMovesResolved(record: EntityRecord, movePower: string -> Option<int>)
    ensures forall m :: m in Summarize(record, movePower).moves ==>
              exists i :: 0 <= i < |record.moves| && record.moves[i].move.name == m.name
                          && movePower(record.moves[i].move.url) == Some(m.power)
  {
    var cands := Candidates(record.moves, movePower);
    TopMovesFromListing(cands);
    forall m | m in Summarize(record, movePower).moves
      ensures exists i :: 0 <= i < |record.moves| && record.moves[i].move.name == m.name
                          && movePower(record.moves[i].move.url) == Some(m.power)
    {
      var i :| 0 <= i < |cands| && cands[i] == MoveCandidate(m.name, Some(m.power));
      assert record.moves[i].move.name == m.name;
    }
  }

  /**
   * The entity lookup. The gate runs first; a name that is not purely
   * alphabetic is refused before any catalog GET; otherwise the entity is
   * fetched under the lower-cased name, a 404 is reported with that name,
   * and any other reply is summarised after one GET per listed move.
   * `requests` is the sequence of catalog GETs issued.
   */
  method GetPokemon(token: string, pokemonName: string,
                    entities: string -> Reply<EntityRecord>, movePower: string -> Option<int>)
    returns (r: Result<PokemonSummary, ApiError>, requests: seq<Request>)
    ensures GetCurrentUser(token).Failure? ==> r == Failure(InvalidCredentials) && requests == []
    ensures GetCurrentUser(token).Success? && !IsAlpha(pokemonName) ==>
              r == Failure(InvalidPokemonName(pokemonName)) && requests == []
    ensures GetCurrentUser(token).Success? && IsAlpha(pokemonName) && entities(Lower(pokemonName)).status == 404 ==>
              r == Failure(PokemonNotFound(Lower(pokemonName))) && requests == [EntityGet(Lower(pokemonName))]
    ensures GetCurrentUser(token).Success? && IsAlpha(pokemonName) && entities(Lower(pokemonName)).status != 404 ==>
              var record := entities(Lower(pokemonName)).body;
              r == Success(Summarize(record, movePower)) && requests == [EntityGet(Lower(pokemonName))] + MoveRequests(record.moves)
  {
    requests := [];
    if GetCurrentUser(token).Failure? {
      return Failure(InvalidCredentials), requests;
    }
    if !IsAlpha(pokemonName) {
      return Failure(InvalidPokemonName(pokemonName)), requests;
    }
    var key := Lower(pokemonName);
    requests := requests + [EntityGet(key)];
    var response := entities(key);
    if response.status == 404 {
      return Failure(PokemonNotFound(key)), requests;
    }
    var data := response.body;
    var cands, moveRequests := ResolveMoves(data.moves, movePower);
    requests := requests + moveRequests;
    var kept := KeepPowered(cands);
    var ranked := SortByPowerDesc(kept);
    var moves := ranked[..if |ranked| < TopMoveCount then |ranked| else TopMoveCount];
    r := Success(PokemonSummary(data.frontShiny, data.name, TypeNames(data.types), data.weight, data.height,
                                StatSubset(data.stats), moves));
  }

  // ---------------------------------------------------- generation listing

  /** The species names of a generation, in listed order. */
  function SpeciesNames(species: seq<NamedResource>): seq<string> {
    seq(|species|, i requires 0 <= i < |species| => species[i].name)
  }

  /**
   * The generation listing. The gate runs first; a 404 and a 400 from the
   * catalog become their own errors; any other reply yields the requested
   * page of the generation's species names.
   */
  function GetGeneration(token: string, generation: int, generations: int -> Reply<GenerationRecord>,
                         page: int, pageSize: int): (r: Result<seq<string>, ApiError>)
    requires page >= 1 && 1 <= pageSize <= 100
    ensures GetCurrentUser(token).Failure? ==> r == Failure(InvalidCredentials)
    ensures GetCurrentUser(token).Success? && generations(generation).status == 404 ==>
              r == Failure(GenerationNotFound(generation))
    ensures GetCurrentUser(token).Success? && generations(generation).status == 400 ==>
              r == Failure(InvalidGenerationName(generation))
    ensures GetCurrentUser(token).Success? && generations(generation).status !in {400, 404} ==>
              var names := generations(generation).body.pokemonSpecies;
              r.Success? && |r.value| <= pageSize &&
              |r.value| == Math.Max(0, Math.Min(pageSize, |names| - PageStart(page, pageSize))) &&
              forall i :: 0 <= i < |r.value| ==> r.value[i] == names[PageStart(page, pageSize) + i].name
  {
    if GetCurrentUser(token).Failure? then Failure(InvalidCredentials)
    else
      var response := generations(generation);
      if response.status == 404 then Failure(GenerationNotFound(generation))
      else if response.status == 400 then Failure(InvalidGenerationName(generation))
      else Success(Page(SpeciesNames(response.body.pokemonSpecies), page, pageSize))
  }
}
