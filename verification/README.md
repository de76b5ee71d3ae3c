# Community sustainability API — a Dafny model of its controllers

This project models the request-handling core of a small REST API that records
residential communities (`Comunidade`), their residents (`Morador`), the
sustainability initiatives they run (`Iniciativa`) and the measured impact of
those initiatives (`Metrica`), plus the dashboard that aggregates them.

The database is an immutable `Db.Store`: one `Table` per entity, each a map from
id to record plus the autoincrement counter new ids come from. Every controller
call is a pure function from the store and the request body to
`Result<Saved<T>>` (or `Result<Store>` for deletes). An `Err` carries no store,
so a rejected request writes nothing by construction.

Request bodies use `Js.Value`: `undefined`, `null`, booleans, integers and
strings. This keeps the two merge idioms of the source apart:

- `x || old` (`Js.Or`) keeps the stored value for every falsy `x`;
- `x !== undefined ? x : old` (`Js.IfDefined`) stores any defined `x`, including `null` and `""`.

Ids are `nat`, and an id of 0 in a body means "not supplied". Tables hand out
ids from 1, so 0 is never a key (`Table.Wf`).

Modules follow the source files:

- `ComunidadeController`, `MoradoresController`, `IniciativaController` and
  `MetricaController` hold create, fetch, update and delete, each with its merge function.
- `DashboardController` holds `getMetricas`.
- `Outcomes` holds the closed error taxonomy. Its `Rank` is the fixed order in
  which checks run: path id, required fields, categoria, status, referenced
  records, relationship, unique email.
- `Enumerations` holds the category/status registry. Its values are defined
  outside the controllers, so the registry is a parameter. `Registry.Valid` says the
  values are distinct and PLANEJADA is a status.
- `Invariants` and `Requests` state the store-wide properties and which requests keep them.
- `Scenarios` replays concrete request sequences from an empty database.

Each create or update operation states its checks as a set of violations, each
judged on its own (`CreateViolations`, `UpdateViolations`). Its contract says two
things. The call succeeds exactly when that set is empty. Otherwise the reported
error is the violation of least rank (`Outcomes.FirstOf`), which is the first
check that fails.

Behaviour of the code that the model keeps as written:

- Containment (an initiative's responsible resident lives in the initiative's
  community) is re-checked on update only when `responsavelId` is supplied
  (iniciativaController.js:173-185). Three paths are accepted unchecked:
  changing an initiative's `comunidadeId` alone, moving a leading resident to
  another community (moradoresController.js:119-133), and deleting a leading
  resident (moradoresController.js:161-173). `Requests.KeepsContainment` names
  the requests that preserve containment, and three lemmas exhibit the three
  paths on a concrete store.
- Neither `createMetrica` nor `updateMetrica` checks `tipo`; the dashboard sums
  three literal type names.
- Deleting a community, resident or initiative never checks or touches the
  records that reference it.
- The ranking of most active communities has no tie-break in the code. The model
  breaks ties by ascending id (`DashboardController.Ahead`).

## Model

| member | source | states |
|---|---|---|
| `ComunidadeController.CreateComunidade` | src/controllers/comunidadeController.js:56-73 | fails with the missing-field error exactly when `nome` or `localizacao` is falsy; otherwise adds one community under a fresh id carrying the body's fields, and no other table changes |
| `ComunidadeController.GetComunidadeById` | src/controllers/comunidadeController.js:29-42 | returns the stored community when the id exists, else not-found |
| `ComunidadeController.MergeComunidade` | src/controllers/comunidadeController.js:106-112 | `nome`, `localizacao` and `dataFundacao` take the body value only when it is truthy; `descricao` and `metaSustentabilidade` take it whenever it is defined |
| `ComunidadeController.UpdateComunidade` | src/controllers/comunidadeController.js:94-112 | not-found exactly for an unknown id; otherwise only that community's record changes, to the merge of the old record and the body |
| `ComunidadeController.DeleteComunidade` | src/controllers/comunidadeController.js:135-147 | not-found exactly for an unknown id; otherwise removes only that community; residents and initiatives that reference it are untouched |
| `ComunidadeController.UpdateComunidadeIdempotent` | src/controllers/comunidadeController.js:106-112 | an update whose body restates the stored fields succeeds and leaves the store unchanged |
| `ComunidadeController.MergeComunidadeEmptyPatch` | src/controllers/comunidadeController.js:106-112 | a body supplying no field leaves the record as it is |
| `ComunidadeController.MergeComunidadeTwice` | src/controllers/comunidadeController.js:106-112 | applying the same body twice equals applying it once |
| `ComunidadeController.GetAfterCreateComunidade` | src/controllers/comunidadeController.js:29-73 | fetching the id a successful create returned yields the created record |
| `ComunidadeController.GetAfterDeleteComunidade` | src/controllers/comunidadeController.js:29-147 | after a successful delete the id is not found |
| `MoradoresController.CreateMorador` | src/controllers/moradoresController.js:58-96 | checks in order: required `nome`/`email`/`comunidadeId`, then the community exists, then no resident holds the email; the first failure is reported; on success one resident is added whose email no other resident holds, and no other table changes |
| `MoradoresController.GetMoradorById` | src/controllers/moradoresController.js:31-46 | returns the stored resident when the id exists, else not-found |
| `MoradoresController.MergeMorador` | src/controllers/moradoresController.js:127-133 | `nome`, `email`, `dataNascimento` and `comunidadeId` take the body value only when truthy; `telefone` takes it whenever defined |
| `MoradoresController.UpdateMorador` | src/controllers/moradoresController.js:107-150 | not-found first; the community is looked up only when the body names one different from the current one; the merged email must not belong to another resident; on success only that resident's record changes, and initiatives naming it as responsible are neither checked nor modified |
| `MoradoresController.DeleteMorador` | src/controllers/moradoresController.js:161-173 | not-found exactly for an unknown id; otherwise removes only that resident |
| `MoradoresController.UpdateMoradorIdempotent` | src/controllers/moradoresController.js:119-133 | restating the stored fields succeeds and changes nothing when no other resident shares the email |
| `MoradoresController.MergeMoradorEmptyPatch` | src/controllers/moradoresController.js:127-133 | a body supplying no field leaves the record as it is |
| `MoradoresController.MergeMoradorTwice` | src/controllers/moradoresController.js:127-133 | applying the same body twice equals applying it once |
| `MoradoresController.GetAfterCreateMorador` | src/controllers/moradoresController.js:31-79 | fetching the id a successful create returned yields the created record |
| `MoradoresController.GetAfterDeleteMorador` | src/controllers/moradoresController.js:31-173 | after a successful delete the id is not found |
| `IniciativaController.CreateIniciativa` | src/controllers/iniciativaController.js:61-116 | checks in order: required fields, categoria in the registry, status in the registry if supplied, community exists, responsible exists, responsible's community equals the supplied one; the first failure is reported; on success one initiative is added under a fresh id, status defaults to PLANEJADA, its responsible lives in its community, and no other table changes |
| `IniciativaController.GetIniciativaById` | src/controllers/iniciativaController.js:34-54 | returns the stored initiative when the id exists, else not-found |
| `IniciativaController.MergeIniciativa` | src/controllers/iniciativaController.js:189-198 | `titulo`, `categoria`, `dataInicio`, `status`, `comunidadeId` and `responsavelId` take the body value only when truthy; `descricao` and `dataFim` take it whenever defined |
| `IniciativaController.UpdateIniciativa` | src/controllers/iniciativaController.js:139-198 | not-found first; categoria and status are checked only when supplied, the community only when supplied; a supplied responsible must exist and live in the effective community (the supplied one, else the stored one); on success only that record changes |
| `IniciativaController.DeleteIniciativa` | src/controllers/iniciativaController.js:221-233 | not-found exactly for an unknown id; otherwise removes only that initiative; metrics that reference it stay |
| `IniciativaController.UpdateIniciativaIdempotent` | src/controllers/iniciativaController.js:150-198 | restating the stored fields succeeds and changes nothing when the stored values pass the update checks |
| `IniciativaController.MergeIniciativaEmptyPatch` | src/controllers/iniciativaController.js:189-198 | a body supplying no field leaves the record as it is |
| `IniciativaController.MergeIniciativaTwice` | src/controllers/iniciativaController.js:189-198 | applying the same body twice equals applying it once |
| `IniciativaController.GetAfterCreateIniciativa` | src/controllers/iniciativaController.js:34-116 | fetching the id a successful create returned yields the created record |
| `IniciativaController.GetAfterUpdateIniciativa` | src/controllers/iniciativaController.js:34-198 | after a successful update, fetching the id yields the merge of the old record and the body |
| `IniciativaController.GetAfterDeleteIniciativa` | src/controllers/iniciativaController.js:34-233 | after a successful delete the id is not found |
| `MetricaController.CreateMetrica` | src/controllers/metricaController.js:55-78 | checks in order: truthy `iniciativaId`, `tipo` and `unidade` and a defined `valor` (0 accepted), then the initiative exists; on success one metric is added with `dataRegistro` the supplied truthy value or else the clock reading, and no other table changes |
| `MetricaController.GetMetricaById` | src/controllers/metricaController.js:31-43 | returns the stored metric when the id exists, else not-found |
| `MetricaController.MergeMetrica` | src/controllers/metricaController.js:121-127 | `valor` takes any defined value, 0 included; `iniciativaId`, `tipo`, `unidade` and `dataRegistro` take the body value only when truthy |
| `MetricaController.UpdateMetrica` | src/controllers/metricaController.js:101-127 | not-found first; the initiative is looked up only when the body names one different from the current one; on success only that record changes |
| `MetricaController.DeleteMetrica` | src/controllers/metricaController.js:150-162 | not-found exactly for an unknown id; otherwise removes only that metric |
| `MetricaController.UpdateMetricaIdempotent` | src/controllers/metricaController.js:113-127 | restating the stored fields succeeds and changes nothing |
| `MetricaController.MergeMetricaEmptyPatch` | src/controllers/metricaController.js:121-127 | a body supplying no field leaves the record as it is |
| `MetricaController.MergeMetricaTwice` | src/controllers/metricaController.js:121-127 | applying the same body twice equals applying it once |
| `MetricaController.ZeroValorIsStored` | src/controllers/metricaController.js:124 | an update with `valor` 0 succeeds and stores 0 |
| `MetricaController.GetAfterCreateMetrica` | src/controllers/metricaController.js:31-78 | fetching the id a successful create returned yields the created record |
| `MetricaController.GetAfterDeleteMetrica` | src/controllers/metricaController.js:31-162 | after a successful delete the id is not found |
| `DashboardController.GetMetricas` | src/controllers/dashboardController.js:14-79 | the snapshot's totals are the table sizes; each bucket map has exactly one key per registry value, mapped to the number of initiatives with that value; each impact entry is the sum of `valor` over metrics of that type; the ranking satisfies `IsRanking` |
| `DashboardController.SumImpact` | src/controllers/dashboardController.js:44-57 | the loop's total is the sum of `valor` over the metrics of the given type |
| `DashboardController.ImpactSumRemove` | src/controllers/dashboardController.js:44-57 | the sum is independent of the order metrics are visited: taking any one metric out removes exactly its contribution |
| `DashboardController.ImpactSumInsert` | src/controllers/dashboardController.js:44-64 | storing one more metric raises the sum for its type by its value and leaves other types' sums unchanged |
| `DashboardController.ImpactSumNone` | src/controllers/dashboardController.js:44-57 | with no metric of a type the sum is 0 |
| `DashboardController.CountBucketAtMostTotal` | src/controllers/dashboardController.js:26-41 | no bucket counts more initiatives than exist |
| `DashboardController.SumBucketsCountsCovered` | src/controllers/dashboardController.js:26-41 | over distinct registry values the bucket counts add up to the number of initiatives whose value is among them |
| `DashboardController.BucketsSumToTotal` | src/controllers/dashboardController.js:26-41 | with a valid registry and only registry values stored, category buckets and status buckets each add up to the initiative total |
| `DashboardController.PickBest` | src/controllers/dashboardController.js:67-78 | the chosen community ranks ahead of every other candidate |
| `DashboardController.RankComunidades` | src/controllers/dashboardController.js:67-78 | lists min(5, number of communities) entries carrying id, name and initiative count (0 included), ordered by count descending, and every unlisted community ranks behind every listed one |
| `DashboardController.EmptyStoreSnapshot` | src/controllers/dashboardController.js:17-79 | on an empty store all totals and impact sums are 0, every registry value has a bucket of 0, and the ranking is empty |
| `Requests.ApplyPreservesConsistent` | src/controllers/iniciativaController.js:73-198 | every request keeps ids well formed, every stored categoria and status in the registry, and every email unique |
| `Requests.ApplyPreservesContainment` | src/controllers/iniciativaController.js:100-185 | every successful request keeps each initiative's responsible resident in the initiative's community, except the three unchecked paths: moving a leading resident, deleting a leading resident, and changing an initiative's community without naming a responsible |
| `Requests.CreateMetricaMovesImpact` | src/controllers/dashboardController.js:44-64 | creating a metric of type reducaoCO2 with value V raises that impact entry by exactly V, and each entry moves only for its own type |
| `Requests.ComunidadeOnlyUpdateBreaksContainment` | src/controllers/iniciativaController.js:166-198 | moving an initiative to another community without naming a responsible is accepted and breaks containment |
| `Requests.MovingResponsavelBreaksContainment` | src/controllers/moradoresController.js:119-133 | moving a responsible resident to another community is accepted and breaks containment |
| `Requests.DeletingResponsavelBreaksContainment` | src/controllers/moradoresController.js:161-173 | deleting a resident who leads an initiative is accepted and leaves the initiative with a responsavelId that names no resident |
| `Scenarios.ScenarioA` | src/controllers/iniciativaController.js:107-116 | community, resident, then an initiative without status: the initiative is stored as PLANEJADA |
| `Scenarios.ScenarioB` | src/controllers/iniciativaController.js:100-105 | a resident of another community cannot lead the initiative: the relationship error is reported |
| `Scenarios.ScenarioC` | src/controllers/dashboardController.js:44-47 | two reducaoCO2 metrics of 10 and 15 give a CO2 impact of 25 |

## Left out

- The Express plumbing (`req`/`res`, JSON bodies, response shapes) and logging. `Outcomes.HttpStatus` only records which errors answer 404 and which answer 400.
- The list operations `getAllComunidades`, `getAllMoradores`, `getAllIniciativas` and `getAllMetricas`. Each returns a whole table, which the model holds as `rows`. The associations `include`d in fetch responses are not modelled.
- `SequelizeValidationError` and every other exception that ends in a 500. The model constraints behind them are not part of this model. The one store constraint modelled is the unique email, checked after every controller check, at write time.
- Async execution and the race between a lookup and the write. Each call is one atomic step over the store.
- Type coercion between string and numeric ids. Ids are `nat`, and 0 stands for an absent or falsy id.
- `MetricaController.CreateMetrica`: `valor` is an integer or undefined. Floating-point, `null` and non-numeric values are left to the `Metrica` column types, which this model does not cover.
- `Db.Table.Insert`: ids come from a per-table counter that never reuses a deleted id. This matches the usual autoincrement but is not fixed by the source.
- `MoradoresController.CreateMorador`: the unique constraint treats any two equal email values as a clash. SQL's rule that NULLs never clash is not modelled; the controllers never store a falsy email over a truthy one.
- The clock behind `new Date()` is the parameter `now` of `CreateMetrica`.
- `DashboardController.RankComunidades`: ties in initiative count are broken by ascending community id. The SQL query leaves this order to the database.
- `DashboardController.RankComunidades`: the ranking follows what the query means (a left-join count per community, ordered by count descending, limited to 5), not the SQL the ORM generates for `findAll` with an `include`, `group` and `limit`, which may place the limit differently.
- The registry values (`Iniciativa.CATEGORIAS`, `Iniciativa.STATUS`) are not part of this model. They are a `Registry` parameter; where a property needs it, it assumes the registry is valid (distinct values, PLANEJADA among the statuses).
- The model files under src/models and the database configuration are not part of this model. Their field names disagree with the controllers, and the model takes its field names from the controllers.
