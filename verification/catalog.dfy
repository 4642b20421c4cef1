/**
 * The parts of the catalog's JSON replies the gateway reads. A catalog GET
 * is modelled by its reply: the HTTP status and the decoded body.
 */
module Catalog {
  import opened Wrappers

  /** A `{name, url}` reference to another catalog resource. */
  datatype NamedResource = NamedResource(name: string, url: string)

  /** One entry of an entity's `types` list. */
  datatype TypeSlot = TypeSlot(typeRef: NamedResource)

  /** One entry of an entity's `stats` list: the stat it measures and its base value. */
  datatype StatEntry = StatEntry(stat: NamedResource, baseStat: int)

  /** One entry of an entity's `moves` list: a reference to the move resource. */
  datatype MoveSlot = MoveSlot(move: NamedResource)

  /** The decoded body of an entity GET. */
  datatype EntityRecord = EntityRecord(
    frontShiny: Option<string>,
    name: string,
    types: seq<TypeSlot>,
    weight: int,
    height: int,
    stats: seq<StatEntry>,
    moves: seq<MoveSlot>)

  /** The decoded body of a generation GET: the species it introduced. */
  datatype GenerationRecord = GenerationRecord(pokemonSpecies: seq<NamedResource>)

  /** What a catalog GET returns: an HTTP status and the decoded body. */
  datatype Reply<T> = Reply(status: int, body: T)

  /** The catalog GETs a request issues, in the order it issues them. */
  datatype Request = EntityGet(name: string) | MoveGet(url: string)
}
