# ERI connector data service, modelled in Dafny

This project models `ExternalConnectorDataService`, the data service of the
i2 Analyze Emergency Response Incident (ERI) connector. The service answers
four requests against a Socrata dataset:

- `all` asks for every row.
- `search` filters by user conditions, with prefix matches joined by `AND`.
- `findLikeThisIncident` asks for incidents of the seed's type.
- `expand` asks for rows sharing the seed's incident type, or its borough and address.

Each request becomes a URL template with `{placeholders}` and a parameter map.
The rows that come back are shaped into entities and links.

- `all` and `expand` deduplicate incidents and locations by key and add one numbered link per row.
- `expand` then relinks each link to the seed. It renames the link's from end to the seed's identifier if that end carries the seed's source key. Otherwise it renames the to end if that end carries the key. At most one end of each link changes.
- `search` and `findLikeThisIncident` list one incident per row and set no links.

Modules, one concern each:

- `Wrappers`: `Option` and `Result`.
- `Transport`: the values exchanged with the caller and the dataset: conditions, seeds, query parameters, rows and entities.
- `QueryBuilder`: the four queries. `search`'s loop is the method `BuildSearch`; the other three are functions.
- `Marshalling`: the `Link` class, the marshalling loop `Marshal`, and the per-row incident list `IndexedIncidents`. `Marshal` is proved against the reference functions `EntitiesOf` and `RowLinks`. `IndexedIncidents` is stated row by row: entry i is the incident of row i keyed with index i.
- `SeedLinking`: `LinkToSeedIds`, the in-place relinking loop over `Link` objects. It is proved against `RelinkAll`.
- `ConnectorDataService`: the four operations, which compose the modules above.

The dataset call is a parameter `fetch: Query -> seq<Row>`, so every statement
holds for whatever rows the dataset returns. Row keys (`getIncidentKey()`,
`getLocationKey()`, `getIncidentKey(index)`) are a `KeyScheme` of function
values and are never interpreted. An entity is its kind, its key and its row.
A link is its number and its two end identifiers, held in mutable fields.

## Model

| member | source | states |
|---|---|---|
| QueryBuilder.AllQuery | connector/eri/eri-connector/src/main/java/com/i2group/eri/ExternalConnectorDataService.java:71-74 | the query of `all` is the base query with the limit as its only parameter |
| QueryBuilder.SearchUrl | connector/eri/eri-connector/src/main/java/com/i2group/eri/ExternalConnectorDataService.java:88-96 | the search URL starts with the base query |
| QueryBuilder.SearchParams | connector/eri/eri-connector/src/main/java/com/i2group/eri/ExternalConnectorDataService.java:86-94 | the search map always holds `limitValue`, and every other name in it is the id of a condition with a value |
| QueryBuilder.SearchQuery | connector/eri/eri-connector/src/main/java/com/i2group/eri/ExternalConnectorDataService.java:86-98 | the search query pairs that URL with that map: it starts with the base query and binds `limitValue` |
| QueryBuilder.FindLikeThisQuery | connector/eri/eri-connector/src/main/java/com/i2group/eri/ExternalConnectorDataService.java:120-125 | the find-like-this query fails exactly when there is no seed, and then with the missing-seed error |
| QueryBuilder.ExpandQuery | connector/eri/eri-connector/src/main/java/com/i2group/eri/ExternalConnectorDataService.java:146-170 | the expand query fails with the missing-seed error exactly when there is no seed; any other failure comes from an ET1 or ET2 seed and names a property that seed lacks |
| QueryBuilder.EveryQueryLimited | connector/eri/eri-connector/src/main/java/com/i2group/eri/ExternalConnectorDataService.java:39-41 | every query starts with `?$limit={limitValue}` and maps `limitValue` to 50 (for search, unless a condition is itself named `limitValue`) |
| QueryBuilder.BuildSearch | connector/eri/eri-connector/src/main/java/com/i2group/eri/ExternalConnectorDataService.java:85-98 | the loop builds exactly the declarative search query (kept clauses joined, one put per kept value); the limit survives unless a kept id is `limitValue` |
| QueryBuilder.KeptMembers | connector/eri/eri-connector/src/main/java/com/i2group/eri/ExternalConnectorDataService.java:91-92 | a condition is kept exactly when it is one of the conditions and has a value |
| QueryBuilder.KeptFirst | connector/eri/eri-connector/src/main/java/com/i2group/eri/ExternalConnectorDataService.java:92-93 | the clause after `&$where=` is the first condition with a value; skipped conditions do not take that slot |
| QueryBuilder.SearchAllNull | connector/eri/eri-connector/src/main/java/com/i2group/eri/ExternalConnectorDataService.java:86-98 | every value is null if and only if the URL is exactly the base query; then the map holds the limit alone |
| QueryBuilder.SearchUrlShape | connector/eri/eri-connector/src/main/java/com/i2group/eri/ExternalConnectorDataService.java:93-95 | with k >= 1 kept conditions the URL is base, `&$where=`, the first clause `id like '{id}%'`, then ` AND ` and the clause of each of the other k-1 |
| QueryBuilder.SearchParamsKeys | connector/eri/eri-connector/src/main/java/com/i2group/eri/ExternalConnectorDataService.java:92-94 | a name is a search parameter exactly when it is `limitValue` or the id of a condition with a value; null conditions add nothing |
| QueryBuilder.SearchParamsValue | connector/eri/eri-connector/src/main/java/com/i2group/eri/ExternalConnectorDataService.java:94 | a kept condition's id maps to its value unless a later kept condition reuses the id |
| QueryBuilder.SearchLimit | connector/eri/eri-connector/src/main/java/com/i2group/eri/ExternalConnectorDataService.java:86-94 | the search query is limited, or some kept condition is named `limitValue` |
| QueryBuilder.SearchConditionOverridesLimit | connector/eri/eri-connector/src/main/java/com/i2group/eri/ExternalConnectorDataService.java:87-94 | in any condition list, the last kept condition named `limitValue` binds the limit placeholder to its own value, replacing 50 |
| QueryBuilder.FindLikeThisShape | connector/eri/eri-connector/src/main/java/com/i2group/eri/ExternalConnectorDataService.java:119-125 | no seed fails; otherwise the URL is `?$limit={limitValue}&$where=incident_type like '{incidentType}%'` and the map holds exactly the limit and PT1, null when PT1 is absent |
| QueryBuilder.FindLikeThisReadsOnlyPT1 | connector/eri/eri-connector/src/main/java/com/i2group/eri/ExternalConnectorDataService.java:120-125 | two seed lists whose first seeds agree on PT1 give the same query |
| QueryBuilder.ExpandIncident | connector/eri/eri-connector/src/main/java/com/i2group/eri/ExternalConnectorDataService.java:152-159 | an ET1 seed with PT1 and PT2 filters `{field}='{value}'` with `field` = `incident_type` and `value` = PT1-PT2; a missing PT1 (then PT2) is an error |
| QueryBuilder.ExpandLocation | connector/eri/eri-connector/src/main/java/com/i2group/eri/ExternalConnectorDataService.java:160-169 | an ET2 seed with PT7 and PT8 gives two equality clauses joined by ` AND ` and exactly the four borough/address parameters plus the limit; a missing PT7 (then PT8) is an error |
| QueryBuilder.ExpandFallback | connector/eri/eri-connector/src/main/java/com/i2group/eri/ExternalConnectorDataService.java:148-150 | any other seed type gives the base query and the limit alone |
| Transport.EntityOf | connector/eri/eri-connector/src/main/java/com/i2group/eri/ExternalConnectorDataService.java:204-214 | the entity made from a row keeps the kind and the row and takes the row's incident or location key as its id |
| Marshalling.Link.constructor | connector/eri/eri-connector/src/main/java/com/i2group/eri/ExternalConnectorDataService.java:219-220 | a link runs from the incident's id to the location's id and carries the number given |
| Marshalling.Intern | connector/eri/eri-connector/src/main/java/com/i2group/eri/ExternalConnectorDataService.java:199-207 | a stored key returns the stored entity and changes nothing; a new key stores and lists the new entity |
| Marshalling.MarshalRow | connector/eri/eri-connector/src/main/java/com/i2group/eri/ExternalConnectorDataService.java:196-221 | one row extends the entity list by its unseen keys, keeps both maps exact, and appends one fresh link with that row's keys and number |
| Marshalling.Marshal | connector/eri/eri-connector/src/main/java/com/i2group/eri/ExternalConnectorDataService.java:187-228 | the entities are `EntitiesOf(rows)`; the links are fresh, distinct objects whose numbers and ends are `RowLinks(rows)` |
| Marshalling.ResponseLinks | connector/eri/eri-connector/src/main/java/com/i2group/eri/ExternalConnectorDataService.java:194-226 | one link per row in row order: link i is numbered i+1, runs from row i's incident key to its location key, and both ends are listed entities |
| Marshalling.RowLinksAt | connector/eri/eri-connector/src/main/java/com/i2group/eri/ExternalConnectorDataService.java:219-221 | the reference link list has one entry per row, numbered from 1, never deduplicated |
| Marshalling.KeysUpToMembers | connector/eri/eri-connector/src/main/java/com/i2group/eri/ExternalConnectorDataService.java:200-205 | a key is in a map after n rows exactly when one of those rows carries it |
| Marshalling.HasUpTo | connector/eri/eri-connector/src/main/java/com/i2group/eri/ExternalConnectorDataService.java:196-217 | an entity of a kind and key is listed exactly when some row so far carries that key |
| Marshalling.EntitiesCover | connector/eri/eri-connector/src/main/java/com/i2group/eri/ExternalConnectorDataService.java:196-217 | every row's incident and location are listed |
| Marshalling.LinkEndsListed | connector/eri/eri-connector/src/main/java/com/i2group/eri/ExternalConnectorDataService.java:219-221 | every link end resolves to a listed entity of the right kind |
| Marshalling.EntitiesUnique | connector/eri/eri-connector/src/main/java/com/i2group/eri/ExternalConnectorDataService.java:199-217 | no kind and key is listed twice |
| Marshalling.EntitiesFirstSeen | connector/eri/eri-connector/src/main/java/com/i2group/eri/ExternalConnectorDataService.java:199-217 | every listed entity is built from the first row carrying its key |
| Marshalling.EntitiesOfPrefix | connector/eri/eri-connector/src/main/java/com/i2group/eri/ExternalConnectorDataService.java:196-217 | the entities of a prefix of the rows are a prefix of the entities (first-seen order) |
| Marshalling.EntitiesGrowth | connector/eri/eri-connector/src/main/java/com/i2group/eri/ExternalConnectorDataService.java:196-217 | a further row appends its incident, then its location, each only if its key is not yet listed |
| Marshalling.SameRowTwice | connector/eri/eri-connector/src/main/java/com/i2group/eri/ExternalConnectorDataService.java:196-221 | the same row twice gives one incident, one location and two links numbered 1 and 2 |
| Marshalling.SharedIncident | connector/eri/eri-connector/src/main/java/com/i2group/eri/ExternalConnectorDataService.java:196-221 | rows A-X, A-Y give incident A, locations X and Y, and two links both from A |
| Marshalling.IndexedIncidents | connector/eri/eri-connector/src/main/java/com/i2group/eri/ExternalConnectorDataService.java:101-107 | one incident per row, in row order, keyed with the index 0, 1, 2, ... |
| SeedLinking.SeedKey | connector/eri/eri-connector/src/main/java/com/i2group/eri/ExternalConnectorDataService.java:239 | the source key exists exactly when the seed has a first source identifier with at least three key parts, and it is the third |
| SeedLinking.Relink | connector/eri/eri-connector/src/main/java/com/i2group/eri/ExternalConnectorDataService.java:240-244 | relinking one link keeps its number, and each end either stays or becomes the seed id |
| SeedLinking.RelinkAll | connector/eri/eri-connector/src/main/java/com/i2group/eri/ExternalConnectorDataService.java:238-245 | relinking keeps the number and order of links and relinks each one on its own |
| SeedLinking.LinkToSeedIds | connector/eri/eri-connector/src/main/java/com/i2group/eri/ExternalConnectorDataService.java:237-248 | fails exactly when there is a link and the seed has no `sourceIds[0].key[2]`, changing nothing; otherwise every link's ends become `RelinkAll` of the old ends, in place, and the same list is returned |
| SeedLinking.RelinkOneEnd | connector/eri/eri-connector/src/main/java/com/i2group/eri/ExternalConnectorDataService.java:240-244 | the number is kept; at most one end changes; a changed end equalled the key and becomes the seed id; from is tried first; a link matching neither end is untouched |
| SeedLinking.RelinkTwice | connector/eri/eri-connector/src/main/java/com/i2group/eri/ExternalConnectorDataService.java:238-244 | relinking is not idempotent: a link with both ends equal to the key changes its to end on a second pass |
| SeedLinking.RelinkToSameKey | connector/eri/eri-connector/src/main/java/com/i2group/eri/ExternalConnectorDataService.java:240-244 | a seed id equal to the key leaves every link as it was |
| ConnectorDataService.All | connector/eri/eri-connector/src/main/java/com/i2group/eri/ExternalConnectorDataService.java:70-77 | the unfiltered query's rows, marshalled: deduplicated entities and fresh, distinct links as `RowLinks` |
| ConnectorDataService.Search | connector/eri/eri-connector/src/main/java/com/i2group/eri/ExternalConnectorDataService.java:85-108 | the rows of the search query, one indexed incident each, no links |
| ConnectorDataService.FindLikeThisIncident | connector/eri/eri-connector/src/main/java/com/i2group/eri/ExternalConnectorDataService.java:119-135 | fails exactly when there is no seed; otherwise the rows of the find-like-this query, one indexed incident each, no links |
| ConnectorDataService.Expand | connector/eri/eri-connector/src/main/java/com/i2group/eri/ExternalConnectorDataService.java:145-178 | query errors pass through; otherwise it fails exactly when rows came back and the seed lacks its source key; on success the entities are marshalled and the links are the marshalled links relinked to the seed |
| ConnectorDataService.ExpandedLinkAt | connector/eri/eri-connector/src/main/java/com/i2group/eri/ExternalConnectorDataService.java:174-175 | expand's link i is numbered i+1; its from end is the seed id if row i's incident key is the source key; otherwise its to end is the seed id if the location key is; every other end keeps the row's key |
| ConnectorDataService.ExpandUnrelatedSeed | connector/eri/eri-connector/src/main/java/com/i2group/eri/ExternalConnectorDataService.java:237-248 | a source key that matches no row leaves every expand link as marshalled |

## Left out

- The HTTP call (`SocrataClient.get`) and its failures are not modelled: the empty base URL or token, the 403 remapping, and other upstream errors. `fetch` is a total function from query to rows.
- Placeholder substitution happens inside the HTTP library and is not part of this model. Queries stay templates plus maps, so nothing is claimed about the final URL or about injection.
- Key derivation (`getIncidentKey`, `getLocationKey`, `getIncidentKey(index)`) is not part of this model; keys are uninterpreted functions.
- `ItemFactory` is not part of this model. Two of its behaviours are assumed, not derived from its code:
  - Transport.EntityOf: assumes `createIncident` and `createLocation` give the entity the key they are passed as its id.
  - Marshalling.Link.constructor: assumes `createLocationLink` sets the from end to the incident's id and the to end to the location's id.
  - `ResponseLinks`, `LinkEndsListed`, `ExpandedLinkAt`, `ExpandUnrelatedSeed` and the end comparisons in `LinkToSeedIds` depend on these two assumptions.
  - A link's identifier, type and direction are not represented.
- The 50-row cap is only a parameter sent upstream, and no bound on the returned rows is asserted.
- `ConnectorResponse` is not part of this model. `search` and `findLikeThisIncident` never assign its `links` field; the model returns an empty list there rather than whatever the class's default is.
- Seed property values and condition values are strings in the model; the Java maps hold objects. `expand` uses `toString()`. `findLikeThisIncident` puts the raw property value, and `search` puts the raw `condition.value`.
- Java `null` is not modelled, nor are the `NullPointerException`s it would cause. This covers a null seed `typeId`, `properties` or `sourceIds`, a null key part, a null condition `id`, a null condition list or seed list, and a null link end (`link.fromEndId.equals`). A null condition value is `None`.
- SeedLinking.LinkToSeedIds: requires the links to be distinct objects. The caller's links come from `Marshal`, which guarantees that. The Java has no such guard: a list holding the same link twice would relink it twice, as `RelinkTwice` shows.
- The `AtomicInteger` counters are plain integers; nothing here is concurrent.
- Re-parsing a search URL back into its conditions is not modelled. A condition id may contain ` AND ` or ` like `, which makes the URL ambiguous. `SearchUrlShape`, `SearchParamsKeys` and `SearchParamsValue` give the URL's structure and the map's contents instead.
- QueryBuilder.EveryQueryLimited: for search, it assumes no kept condition is named `limitValue`. The Java `HashMap.put` would replace the limit, as `SearchConditionOverridesLimit` shows.
