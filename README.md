# Subway line sections, modelled in Dafny

This project models the core of a subway-map service. A **line** is a chain of
**sections** `(up station, down station, distance)` running from the up terminus
to the down terminus. Each section's down station is the next section's up
station, and no station occurs twice. The model covers two parts:

- **The section chain** (`sections.dfy`, module `Sections`). A line grows only
  at its down terminus. A new section must start at the current down terminus
  and must end at a station not yet on the line. A line shrinks only there too:
  the down terminus can be removed, but only while the line has more than one
  section. A refused request leaves the line unchanged. The rules are pure
  functions on section sequences (`TryAppend`, `TryRemove`, `TryAppendAll`)
  with lemmas about them. The class `LineChain` holds one line's sections and
  changes them in place (`CreateSection`, `DeleteSection`), each method proved
  against those functions. `section_acceptance.dfy` replays each section
  acceptance scenario as a client of `LineChain` and proves its outcome.
- **The line facade** (`line_facade.dfy`, module `LineFacade`).
  - `getById` projects a line's stored section records onto their current
    station ids.
  - `getList` groups every listed line's records by line id, collects all
    station ids, builds a station map with `toMap`, and answers one response
    per line.

  Both are functions over abstract collaborators (`Collaborators`: `getLine`,
  `findByLineId`, `findByIds`). `create`, `update` and `delete` are methods of
  the class `LineFacadeService`, which runs against a station registry and
  records every call it makes on the station, line and line-section services,
  in order.

`results.dfy` holds `Option` (for Java's `null`) and `Result` (for a thrown
exception).

The model follows the code on two points:

- No rule rejects a non-positive distance, because nothing in the code or the
  scenarios rejects one.
- `getById` asks for one station per stored record's current station id, as
  the code does. It does not add the up terminus as a separate station.

The section service itself is not part of this model. The chain rules come from
the acceptance scenarios. When a request breaks two rules at once, the model
reports the first rule it checks:

- On append, it checks "the up station must be the down terminus" before
  "the down station must be new".
- On remove, it checks "more than one section" before "the station must be the
  down terminus".

## Model

| member | source | states |
|---|---|---|
| `Sections.SeedStations` | src/test/java/subway/section/LineSectionAcceptanceTest.java:48-54 | a new line's single initial section gives exactly the stations `[up, down]`, and is a valid chain exactly when `up != down` |
| `Sections.TerminusIsLastStation` | src/test/java/subway/section/LineSectionAcceptanceTest.java:72-73 | a line of n sections has n + 1 stations, and its last station is the down terminus |
| `Sections.AppendRule` | src/test/java/subway/section/LineSectionAcceptanceTest.java:57-127 | an append is accepted iff the up station is the down terminus and the down station is not on the line; a wrong up station gives `UpStationNotTerminus`, an already-present down station gives `DownStationOnLine`; on acceptance the line stays a simple path and its stations gain the new down station at the end |
| `Sections.RemoveRule` | src/test/java/subway/section/LineSectionAcceptanceTest.java:129-180 | a one-section line refuses every removal with `OnlyOneSection`; otherwise a removal is accepted iff the station is the down terminus, and is refused with `NotTerminus` if not; on acceptance the line stays a simple path and loses exactly its last station |
| `Sections.AppendThenRemove` | src/test/java/subway/section/LineSectionAcceptanceTest.java:138-147 | removing the station just appended gives back the previous sections |
| `Sections.RemoveThenAppend` | src/test/java/subway/section/LineSectionAcceptanceTest.java:138-148 | re-registering the section just removed gives back the previous sections |
| `Sections.AppendAllGrows` | src/test/java/subway/section/LineSectionAcceptanceTest.java:85-96 | after a run of accepted appends the sections are the old ones followed by the new ones; the stations are the old stations followed by the new down stations in the order they were linked; all stations stay distinct |
| `Sections.LineChain.Stations` | src/test/java/subway/section/LineSectionAcceptanceTest.java:71-73 | the line answers one more station than it has sections, and no station twice |
| `Sections.LineChain.constructor` | src/test/java/subway/section/LineSectionAcceptanceTest.java:48-54 | a line created from `up` to `down` holds the single section `(up, down, distance)` and the stations `[up, down]` |
| `Sections.LineChain.CreateSection` | src/test/java/subway/section/LineSectionAcceptanceTest.java:57-127 | answers `Ok` iff `up` is the old down terminus and `down` is not on the line; then the section is appended and `down` becomes the last station; otherwise the line is unchanged; the chain invariant is kept |
| `Sections.LineChain.DeleteSection` | src/test/java/subway/section/LineSectionAcceptanceTest.java:129-180 | answers `Ok` iff the line has more than one section and the station is its down terminus; then the last section and station are dropped; otherwise the line is unchanged; the chain invariant is kept |
| `SectionAcceptance.CreateStationCase0` | src/test/java/subway/section/LineSectionAcceptanceTest.java:65-74 | appending `(second, third)` to `[first, second]` is accepted and the line reads `[first, second, third]`: 3 stations, `third` at index 2 |
| `SectionAcceptance.CreateStationCase1` | src/test/java/subway/section/LineSectionAcceptanceTest.java:85-96 | appending `(second, third)` and then `(third, fourth)` are both accepted and the line reads `[first, second, third, fourth]`: 4 stations, `fourth` at index 3 |
| `SectionAcceptance.CreateStationCase2` | src/test/java/subway/section/LineSectionAcceptanceTest.java:98-111 | appending `(third, fourth)` to `[first, second]` is rejected with `UpStationNotTerminus` and the line stays `[first, second]` |
| `SectionAcceptance.CreateStationCase3` | src/test/java/subway/section/LineSectionAcceptanceTest.java:113-127 | appending `(second, first)` is rejected with `DownStationOnLine` and the line stays `[first, second]` |
| `SectionAcceptance.DeleteStationCase0` | src/test/java/subway/section/LineSectionAcceptanceTest.java:129-148 | removing `fourth` from `[first, second, third, fourth]` is accepted; the line reads `[first, second, third]`, the same as after the first append alone |
| `SectionAcceptance.DeleteStationCase1` | src/test/java/subway/section/LineSectionAcceptanceTest.java:150-166 | removing `third`, which is not the down terminus, is rejected with `NotTerminus` and all four stations stay |
| `SectionAcceptance.DeleteStationCase2` | src/test/java/subway/section/LineSectionAcceptanceTest.java:168-180 | removing the down terminus `second` of a one-section line is rejected with `OnlyOneSection` and the line stays `[first, second]` |
| `LineFacade.CurrentStationIds` | src/main/java/subway/line/LineFacadeService.java:42-45 | one station id per record, in record order: the k-th id is the k-th record's current station id |
| `LineFacade.Present` | src/main/java/subway/line/LineFacadeService.java:46-47 | every station that `findByIds` returns becomes a non-null list element, in the same order |
| `LineFacade.GetById` | src/main/java/subway/line/LineFacadeService.java:39-48 | fails with `LineNotFound` exactly when the line service has no such line; otherwise answers that line |
| `LineFacade.GetByIdStations` | src/main/java/subway/line/LineFacadeService.java:42-47 | `getById` asks `findByIds` for exactly one id per stored record of the line, in the order the records are returned, and answers the stations found, in the order found |
| `LineFacade.GroupByLineIsFilter` | src/main/java/subway/line/LineFacadeService.java:66-72 | the grouping has a key for a line id iff some record has that line id; that key's list is the current station ids of exactly the records of that line, in encounter order |
| `LineFacade.FetchAllOfLine` | src/main/java/subway/line/LineFacadeService.java:66-68 | if each listed line's records belong to that line and no line is listed twice, the records of line `id` among everything fetched are exactly what `findByLineId(id)` returned, or none if `id` is not listed |
| `LineFacade.AllStationIdsMembers` | src/main/java/subway/line/LineFacadeService.java:73-77 | an id is among those `getList` sends to `findByIds` iff it is in the grouped list of some listed line |
| `LineFacade.AllStationIdsOrder` | src/main/java/subway/line/LineFacadeService.java:73-77 | the ids go to `findByIds` in one list, line by line in list order: line `i`'s grouped ids come after those of every earlier line and before those of every later one |
| `LineFacade.AllStationIdsConcat` | src/main/java/subway/line/LineFacadeService.java:74-77 | the ids collected for two runs of lines are those of the first run followed by those of the second |
| `LineFacade.FetchAllOfAbsentLine` | src/main/java/subway/line/LineFacadeService.java:66-68 | if each listed line's records belong to that line, nothing fetched belongs to a line that is not listed |
| `LineFacade.FetchAllOfListedLine` | src/main/java/subway/line/LineFacadeService.java:66-68 | if each listed line's records belong to that line and no line is listed twice, the `i`-th listed line's records among everything fetched are exactly what `findByLineId` returned for it |
| `LineFacade.ToStationMap` | src/main/java/subway/line/LineFacadeService.java:79-81 | `toMap` succeeds iff the stations have distinct ids; its keys are their ids and each id maps to its station; a repeated id fails with `DuplicateStationKey` |
| `LineFacade.Lookup` | src/main/java/subway/line/LineFacadeService.java:85-88 | one element per id, in order: the station under that id, or null when there is none |
| `LineFacade.Responses` | src/main/java/subway/line/LineFacadeService.java:83-91 | one response per listed line, in list order, each pairing the line with the lookups of its own grouped ids |
| `LineFacade.GetList` | src/main/java/subway/line/LineFacadeService.java:62-92 | requires every listed line to have a grouped record (otherwise the code dereferences null); on success answers one response per listed line, in the line service's order |
| `LineFacade.GetListResponse` | src/main/java/subway/line/LineFacadeService.java:66-91 | the i-th response is for the i-th line; it has one element per record of that line; its k-th present station has the k-th record's current station id and was returned by `findByIds`; the k-th element is null exactly when `findByIds` returned no station with that id; no station comes from another line's records |
| `LineFacade.GetListFails` | src/main/java/subway/line/LineFacadeService.java:79-81 | `getList` fails iff `findByIds` returns some station id twice, and then with `DuplicateStationKey` |
| `LineFacade.GetListAgreesWithGetById` | src/main/java/subway/line/LineFacadeService.java:66-72 | if records come back per line and no line is listed twice, then a line gets a group iff it has records, and its group equals the ids `getById` would ask for |
| `LineFacade.CreateCallOrder` | src/main/java/subway/line/LineFacadeService.java:31-36 | `create` looks up the up and then the down station before storing anything; it stores only when both exist; then it creates the line and registers exactly one section (one is registered, and any registered section is the last call), for the new line's id with the request's up id, down id and distance, which seeds the chain `[up, down]` |
| `LineFacade.UpdateCallOrder` | src/main/java/subway/line/LineFacadeService.java:51-55 | `update` looks up both stations first and updates the line only when both exist |
| `LineFacade.LineFacadeService.constructor` | src/main/java/subway/line/LineFacadeService.java:23-28 | a facade over the given station registry with no calls made yet |
| `LineFacade.LineFacadeService.GetStationById` | src/main/java/subway/line/LineFacadeService.java:32-33 | one lookup call; answers the registered station, or fails with `StationNotFound` |
| `LineFacade.LineFacadeService.Create` | src/main/java/subway/line/LineFacadeService.java:30-37 | appends exactly the calls of `CreateCalls`; succeeds iff both stations exist, failing with `StationNotFound` for the first missing one; answers the new line with the stations `[up, down]` in that order |
| `LineFacade.LineFacadeService.Update` | src/main/java/subway/line/LineFacadeService.java:50-55 | appends exactly the calls of `UpdateCalls`; succeeds iff both stations exist, failing with `StationNotFound` for the first missing one |
| `LineFacade.LineFacadeService.Delete` | src/main/java/subway/line/LineFacadeService.java:57-60 | makes a single delete call on the line service for this id |

## Left out

- HTTP plumbing is not modelled: RestAssured requests, routes, JSON bodies, and the status codes 201, 204 and 400. A 400 answer is modelled as a `Rejected` outcome with its reason.
- The section service, the section repository and the `LineSection` entity are not part of this model. The chain rules stand in for them, stated on a sequence of sections. How many stored records one section produces, and what `getCurrentStationId` denotes, are left open. No relation between the number of records and the number of stations is stated.
- `Sections.LineChain.constructor`: requires `up != down`. Whether the unseen section service refuses a line whose two stations are the same is not known. The facade itself does not refuse it: `LineFacade.LineFacadeService.Create` with equal up and down ids succeeds, records the section `(x, x, distance)` and answers the stations `[x, x]`, as the code at src/main/java/subway/line/LineFacadeService.java:32-36 does.
- `LineFacade.LineFacadeService.Create`: the call on the line converter (`lineConverter.convert`) is not recorded in the call trace; the converter is modelled only as pairing the line with its stations.
- Distances are carried but never checked, since nothing shown validates them. The scenarios draw them from 1 to 9; the scenario methods accept any distance.
- Station hydration order is not modelled. `findByIds` is an abstract function, and nothing is assumed about the order or completeness of what it returns. The scenario methods state positions on the station id sequence of the line.
- `LineService` and `LineConverter` internals are not modelled: line persistence, id generation and response shaping. The new line's id is an input to `Create`. The created line is taken to be `Line(newId, name, color)`. `convert` is taken to pair the line with its station list.
- `LineFacade.LineFacadeService.Update`, `LineFacade.LineFacadeService.Delete`: only the calls the facade makes are modelled, not what the line service then stores.
- `LineFacade.GetById`: the code takes `lineService.getLine(id)` without a null check. The model's `Failure(LineNotFound(id))` stands for `LineService.getLine` throwing on an unknown id; `LineService` is not part of this model.
- `LineFacade.GetList` sees the line service's `getList()` as its input sequence. Each listed line is assumed to be fetched with a deterministic `findByLineId`.
- Spring `@Transactional` boundaries, rollback, concurrency and isolation are not modelled. A failed lookup is modelled as aborting before any storing call is made.
- The station service's own operations (save, list, delete by id) and the HTTP helpers used by the scenarios are not modelled. They hold no decision logic.
