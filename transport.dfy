/**
 * The values exchanged between the connector, its caller and the dataset:
 * request conditions, seeds, query parameters, source rows and entities.
 */
module Transport {
  import opened Wrappers

  /** A value bound to a named `{placeholder}` of a query URL. */
  datatype Param = Num(n: int) | Text(s: string) | Null

  /**
   * A URL template made of literal text and `{name}` placeholders, and the
   * values of those placeholders. Substituting them is the transport's job.
   */
  datatype Query = Query(url: string, params: map<string, Param>)

  /** A user-supplied search condition; a `None` value is a Java `null`. */
  datatype Condition = Condition(id: string, value: Option<string>)

  /** One source-identifier of a seed: its ordered list of key parts. */
  datatype SourceId = SourceId(key: seq<string>)

  /** A previously selected entity sent back by the client. */
  datatype Seed = Seed(seedId: string, typeId: string, properties: map<string, string>,
                       sourceIds: seq<SourceId>)

  /** Failures the source raises as exceptions. */
  datatype Error =
    | NoSeed                      // `seeds.entities.get(0)` on an empty list
    | MissingProperty(id: string) // `.toString()` on an absent seed property
    | MissingSourceKey            // `sourceIds.get(0).key.get(2)` out of range

  /** One row of the dataset, as a field-name to value map. */
  datatype Row = Row(fields: map<string, string>)

  /**
   * How a row's keys are derived (`getIncidentKey()`, `getLocationKey()` and
   * `getIncidentKey(index)`). The derivation is not part of this model, so it
   * is a parameter: every statement holds for every key scheme.
   */
  datatype KeyScheme = KeyScheme(incidentKey: Row -> string,
                                 locationKey: Row -> string,
                                 indexedIncidentKey: (Row, nat) -> string)

  datatype Kind = Incident | Location

  /** An entity built from a row, identified by its key within one response. */
  datatype Entity = Entity(kind: Kind, id: string, row: Row)

  /** The key a row has as an entity of the given kind. */
  function KeyOf(keys: KeyScheme, kind: Kind, r: Row): string
  {
    match kind
    case Incident => keys.incidentKey(r)
    case Location => keys.locationKey(r)
  }

  /** `ItemFactory.createIncident` / `createLocation`: the entity of a row under its key. */
  function EntityOf(keys: KeyScheme, kind: Kind, r: Row): (e: Entity)
    ensures e.kind == kind && e.row == r
    ensures e.id == if kind == Incident then keys.incidentKey(r) else keys.locationKey(r)
  {
    Entity(kind, KeyOf(keys, kind, r), r)
  }
}
