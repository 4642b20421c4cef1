/**
 * The HTTP errors the gateway raises. Each constructor but the last stands
 * for one exception class of the service (FastAPI `HTTPException`s that fix
 * a status code and a message); `InvalidCredentials` stands for the bare 401
 * `HTTPException` the token gate raises inline. Message texts are not modelled.
 */
module Errors {

  datatype ApiError =
    | InvalidPokemonName(pokemonName: string)   // 400: name is not purely alphabetic
    | PokemonNotFound(pokemonName: string)      // 404: catalog has no such entity
    | AuthenticationFailed                      // 401: login with a bad user or password
    | GenerationNotFound(generation: int)       // 404: catalog has no such generation
    | InvalidGenerationName(generation: int)    // 400: catalog rejects the generation id
    | InvalidCredentials                        // 401: bearer token does not name a user

  /** The HTTP status code each error is rendered with. */
  function StatusCode(e: ApiError): (code: int)
    ensures code in {400, 401, 404}
    ensures code == 401 <==> (e.AuthenticationFailed? || e.InvalidCredentials?)
    ensures code == 404 <==> (e.PokemonNotFound? || e.GenerationNotFound?)
  {
    match e
    case InvalidPokemonName(_) => 400
    case PokemonNotFound(_) => 404
    case AuthenticationFailed => 401
    case GenerationNotFound(_) => 404
    case InvalidGenerationName(_) => 400
    case InvalidCredentials => 401
  }
}
