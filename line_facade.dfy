/**
 * The line service facade: creating, updating and deleting lines through the
 * station, line and line-section services, and reading lines back with their
 * stations.
 *
 * The collaborators are modelled by what the facade sees of them.  The read
 * paths take them as functions (`Collaborators`); the write paths run against
 * a station registry and record every call they make on the station, line and
 * line-section services, in order, so that their contracts can say which calls
 * happen and in what order (the call on the line converter is not recorded).
 */
module LineFacade {
  import opened Results
  import opened Sections

  /** Line ids are Java `Long` values; no arithmetic is done on them. */
  type LineId = int

  datatype Station = Station(id: StationId, name: string)

  /** A line's own record: id, name and colour. */
  datatype Line = Line(id: LineId, name: string, color: string)

  /** The body of a create or update request. */
  datatype LineRequest = LineRequest(
    name: string, color: string,
    upStationId: StationId, downStationId: StationId, distance: int)

  /** A stored line-section record as the facade reads it. */
  datatype LineSection = LineSection(lineId: LineId, currentStationId: StationId)

  /** A line together with its stations; `None` is a `null` list element. */
  datatype LineResponse = LineResponse(line: Line, stations: seq<Option<Station>>)

  datatype FacadeError =
    | StationNotFound(stationId: StationId)      // the station service has no such station
    | LineNotFound(lineId: LineId)               // the line service has no such line
    | DuplicateStationKey(stationId: StationId)  // a station id returned twice to `toMap`

  /** What the read paths ask of the line service, the line-section service and
      the station service. */
  datatype Collaborators = Collaborators(
    getLine: LineId -> Option<Line>,
    findByLineId: LineId -> seq<LineSection>,
    findByIds: seq<StationId> -> seq<Station>)

  // ---------------------------------------------------------------------------
  // Stream steps

  /** `map(LineSection::getCurrentStationId)`: one id per record, in record order. */
  function CurrentStationIds(records: seq<LineSection>): (ids: seq<StationId>)
    ensures |ids| == |records|
    ensures forall k :: 0 <= k < |records| ==> ids[k] == records[k].currentStationId
  {
    if records == [] then []
    else CurrentStationIds(records[..|records| - 1]) + [records[|records| - 1].currentStationId]
  }

  /** Every station found becomes a present list element. */
  function Present(stations: seq<Station>): (r: seq<Option<Station>>)
    ensures |r| == |stations|
    ensures forall k :: 0 <= k < |stations| ==> r[k] == Some(stations[k])
  {
    if stations == [] then [] else Present(stations[..|stations| - 1]) + [Some(stations[|stations| - 1])]
  }

  /** The records of `records` that belong to line `id`, in encounter order: the
      reference definition the grouping is proved against. */
  function OfLine(records: seq<LineSection>, id: LineId): seq<LineSection>
  {
    if records == [] then []
    else
      var last := records[|records| - 1];
      OfLine(records[..|records| - 1], id) + (if last.lineId == id then [last] else [])
  }

  /** `map(line -> findByLineId(line.getId())).flatMap(Collection::stream)`. */
  function FetchAll(findByLineId: LineId -> seq<LineSection>, lines: seq<Line>): seq<LineSection>
  {
    if lines == [] then []
    else FetchAll(findByLineId, lines[..|lines| - 1]) + findByLineId(lines[|lines| - 1].id)
  }

  /** `groupingBy(LineSection::getLineId, mapping(LineSection::getCurrentStationId, toList()))`:
      records are visited in encounter order and each id is appended to its line's list. */
  function GroupByLine(records: seq<LineSection>): map<LineId, seq<StationId>>
  {
    if records == [] then map[]
    else
      var grouped := GroupByLine(records[..|records| - 1]);
      var last := records[|records| - 1];
      var sofar := if last.lineId in grouped then grouped[last.lineId] else [];
      grouped[last.lineId := sofar + [last.currentStationId]]
  }

  /** `map(line -> lineStationMap.get(line.getId())).flatMap(Collection::stream)`. */
  function AllStationIds(lines: seq<Line>, grouped: map<LineId, seq<StationId>>): seq<StationId>
    requires forall i :: 0 <= i < |lines| ==> lines[i].id in grouped
  {
    if lines == [] then []
    else AllStationIds(lines[..|lines| - 1], grouped) + grouped[lines[|lines| - 1].id]
  }

  predicate DistinctIds(stations: seq<Station>)
  {
    forall i, j :: 0 <= i < j < |stations| ==> stations[i].id != stations[j].id
  }

  function IdsOf(stations: seq<Station>): set<StationId>
  {
    set s | s in stations :: s.id
  }

  /** `toMap(Station::getId, Function.identity())`, which throws on a repeated key. */
  function ToStationMap(stations: seq<Station>): (r: Result<map<StationId, Station>, FacadeError>)
    ensures r.Success? <==> DistinctIds(stations)
    ensures r.Success? ==> r.value.Keys == IdsOf(stations)
    ensures r.Success? ==> forall i :: 0 <= i < |stations| ==> r.value[stations[i].id] == stations[i]
    ensures r.Failure? ==> r.error.DuplicateStationKey? && r.error.stationId in IdsOf(stations)
  {
    if stations == [] then Success(map[])
    else
      var prefix := stations[..|stations| - 1];
      var last := stations[|stations| - 1];
      assert stations == prefix + [last];
      match ToStationMap(prefix)
      case Failure(e) => Failure(e)
      case Success(m) =>
        if last.id in m then
          DistinctIdsSnoc(prefix, last);
          Failure(DuplicateStationKey(last.id))
        else
          DistinctIdsSnoc(prefix, last);
          Success(m[last.id := last])
  }

  lemma DistinctIdsSnoc(prefix: seq<Station>, last: Station)
    ensures DistinctIds(prefix + [last]) <==> DistinctIds(prefix) && last.id !in IdsOf(prefix)
  {
    var all := prefix + [last];
    if last.id in IdsOf(prefix) {
      var i :| 0 <= i < |prefix| && prefix[i].id == last.id;
      assert all[i].id == all[|prefix|].id;
    }
    if DistinctIds(all) {
      forall i, j | 0 <= i < j < |prefix| ensures prefix[i].id != prefix[j].id {
        assert all[i] == prefix[i] && all[j] == prefix[j];
      }
    }
  }

  /** `map(stationMap::get)`: the station of each id, or `null` when none was found. */
  function Lookup(stationMap: map<StationId, Station>, ids: seq<StationId>): (r: seq<Option<Station>>)
    ensures |r| == |ids|
    ensures forall k :: 0 <= k < |ids| ==>
              r[k] == if ids[k] in stationMap then Some(stationMap[ids[k]]) else None
  {
    if ids == [] then []
    else
      var id := ids[|ids| - 1];
      Lookup(stationMap, ids[..|ids| - 1]) + [if id in stationMap then Some(stationMap[id]) else None]
  }

  /** The final `list.stream().map(line -> convert(line, ...))`, one response per line. */
  function Responses(lines: seq<Line>, grouped: map<LineId, seq<StationId>>,
                     stationMap: map<StationId, Station>): (rs: seq<LineResponse>)
    requires forall i :: 0 <= i < |lines| ==> lines[i].id in grouped
    ensures |rs| == |lines|
    ensures forall i :: 0 <= i < |lines| ==>
              rs[i] == LineResponse(lines[i], Lookup(stationMap, grouped[lines[i].id]))
  {
    if lines == [] then []
    else
      var last := lines[|lines| - 1];
      Responses(lines[..|lines| - 1], grouped, stationMap)
        + [LineResponse(last, Lookup(stationMap, grouped[last.id]))]
  }

  // ---------------------------------------------------------------------------
  // The read paths

  /** `getById`: the ids handed to `findByIds`, one per stored record of the line. */
  function StationIdsOfLine(c: Collaborators, id: LineId): seq<StationId>
  {
    CurrentStationIds(c.findByLineId(id))
  }

  /** `getById(id)`: the line with the stations found for its records' ids. */
  function GetById(c: Collaborators, id: LineId): (r: Result<LineResponse, FacadeError>)
    ensures r.Failure? <==> c.getLine(id).None?
    ensures r.Failure? ==> r.error == LineNotFound(id)
    ensures r.Success? ==> r.value.line == c.getLine(id).value
  {
    match c.getLine(id)
    case None => Failure(LineNotFound(id))
    case Some(line) => Success(LineResponse(line, Present(c.findByIds(StationIdsOfLine(c, id)))))
  }

  /** Every listed line has at least one grouped record; otherwise `getList`
      dereferences the `null` that `lineStationMap.get` returns for it. */
  predicate EachLineHasSection(c: Collaborators, lines: seq<Line>)
  {
    forall i :: 0 <= i < |lines| ==> lines[i].id in GroupByLine(FetchAll(c.findByLineId, lines))
  }

  /** `getList()` for the lines `lines` that the line service lists. */
  function GetList(c: Collaborators, lines: seq<Line>): (r: Result<seq<LineResponse>, FacadeError>)
    requires EachLineHasSection(c, lines)
    ensures r.Success? ==> |r.value| == |lines|
    ensures r.Success? ==> forall i :: 0 <= i < |lines| ==> r.value[i].line == lines[i]
  {
    var grouped := GroupByLine(FetchAll(c.findByLineId, lines));
    var ids := AllStationIds(lines, grouped);
    match ToStationMap(c.findByIds(ids))
    case Failure(e) => Failure(e)
    case Success(stationMap) => Success(Responses(lines, grouped, stationMap))
  }

  // ---------------------------------------------------------------------------
  // Properties of the read paths

  lemma {:induction false} CurrentStationIdsAppend(records: seq<LineSection>, r: LineSection)
    ensures CurrentStationIds(records + [r]) == CurrentStationIds(records) + [r.currentStationId]
  {
    assert (records + [r])[..|records|] == records;
  }

  /** The grouping keeps, for each line id, exactly the ids of the records of that
      line, in encounter order; a line id is a key only if some record has it. */
  lemma {:induction false} GroupByLineIsFilter(records: seq<LineSection>, id: LineId)
    ensures id in GroupByLine(records) <==> OfLine(records, id) != []
    ensures id in GroupByLine(records) ==>
              GroupByLine(records)[id] == CurrentStationIds(OfLine(records, id))
  {
    if records != [] {
      var prefix := records[..|records| - 1];
      var last := records[|records| - 1];
      GroupByLineIsFilter(prefix, id);
      if last.lineId == id {
        CurrentStationIdsAppend(OfLine(prefix, id), last);
      }
    }
  }

  lemma {:induction false} OfLineConcat(a: seq<LineSection>, b: seq<LineSection>, id: LineId)
    ensures OfLine(a + b, id) == OfLine(a, id) + OfLine(b, id)
    decreases |b|
  {
    if b == [] {
      assert a + b == a;
    } else {
      var prefix := b[..|b| - 1];
      assert (a + b)[..|a + b| - 1] == a + prefix;
      assert (a + b)[|a + b| - 1] == b[|b| - 1];
      OfLineConcat(a, prefix, id);
    }
  }

  /** All records of `records` belong to line `id`. */
  predicate AllOfLine(records: seq<LineSection>, id: LineId)
  {
    forall k :: 0 <= k < |records| ==> records[k].lineId == id
  }

  lemma {:induction false} OfLineWhole(records: seq<LineSection>, id: LineId, other: LineId)
    requires AllOfLine(records, id)
    ensures OfLine(records, id) == records
    ensures other != id ==> OfLine(records, other) == []
  {
    if records != [] {
      var prefix := records[..|records| - 1];
      OfLineWhole(prefix, id, other);
      assert records == prefix + [records[|records| - 1]];
    }
  }

  /** The line-section service answers each listed line with records of that line only. */
  predicate OwnRecordsOnly(c: Collaborators, lines: seq<Line>)
  {
    forall i :: 0 <= i < |lines| ==> AllOfLine(c.findByLineId(lines[i].id), lines[i].id)
  }

  /** The line service lists each line once. */
  predicate DistinctLineIds(lines: seq<Line>)
  {
    forall i, j :: 0 <= i < j < |lines| ==> lines[i].id != lines[j].id
  }

  /** The records fetched contain none of a line that is not listed. */
  lemma {:induction false} FetchAllOfAbsentLine(c: Collaborators, lines: seq<Line>, id: LineId)
    requires OwnRecordsOnly(c, lines)
    requires forall i :: 0 <= i < |lines| ==> lines[i].id != id
    ensures OfLine(FetchAll(c.findByLineId, lines), id) == []
  {
    if lines != [] {
      var prefix := lines[..|lines| - 1];
      var last := lines[|lines| - 1];
      assert forall i :: 0 <= i < |prefix| ==> prefix[i] == lines[i];
      FetchAllOfAbsentLine(c, prefix, id);
      OfLineConcat(FetchAll(c.findByLineId, prefix), c.findByLineId(last.id), id);
      OfLineWhole(c.findByLineId(last.id), last.id, id);
    }
  }

  /** The records fetched of the `i`-th listed line are what `findByLineId` gave for it. */
  lemma {:induction false} FetchAllOfListedLine(c: Collaborators, lines: seq<Line>, i: nat)
    requires OwnRecordsOnly(c, lines) && DistinctLineIds(lines)
    requires i < |lines|
    ensures OfLine(FetchAll(c.findByLineId, lines), lines[i].id) == c.findByLineId(lines[i].id)
  {
    var id := lines[i].id;
    var prefix := lines[..|lines| - 1];
    var last := lines[|lines| - 1];
    assert forall j :: 0 <= j < |prefix| ==> prefix[j] == lines[j];
    OfLineConcat(FetchAll(c.findByLineId, prefix), c.findByLineId(last.id), id);
    OfLineWhole(c.findByLineId(last.id), last.id, id);
    if i == |lines| - 1 {
      FetchAllOfAbsentLine(c, prefix, id);
    } else {
      assert last.id != id;
      FetchAllOfListedLine(c, prefix, i);
    }
  }

  lemma FetchAllOfLine(c: Collaborators, lines: seq<Line>, id: LineId)
    requires OwnRecordsOnly(c, lines) && DistinctLineIds(lines)
    ensures (forall i :: 0 <= i < |lines| ==> lines[i].id != id) ==>
              OfLine(FetchAll(c.findByLineId, lines), id) == []
    ensures forall i :: 0 <= i < |lines| && lines[i].id == id ==>
              OfLine(FetchAll(c.findByLineId, lines), id) == c.findByLineId(id)
  {
    if forall i :: 0 <= i < |lines| ==> lines[i].id != id {
      FetchAllOfAbsentLine(c, lines, id);
    }
    forall i | 0 <= i < |lines| && lines[i].id == id
      ensures OfLine(FetchAll(c.findByLineId, lines), id) == c.findByLineId(id)
    {
      FetchAllOfListedLine(c, lines, i);
    }
  }

  /** No cross-line mixing, encounter order, one response per line: on success the
      `i`-th response is for the `i`-th listed line, and its `k`-th element is the
      station whose id is the current station of that line's `k`-th record (or
      `null` when the station service did not return it). */
  lemma GetListResponse(c: Collaborators, lines: seq<Line>, i: nat)
    requires EachLineHasSection(c, lines)
    requires i < |lines|
    ensures GetList(c, lines).Success? ==>
              var resp := GetList(c, lines).value[i];
              var own := OfLine(FetchAll(c.findByLineId, lines), lines[i].id);
              resp.line == lines[i] && |resp.stations| == |own| &&
              forall k :: 0 <= k < |own| && resp.stations[k].Some? ==>
                resp.stations[k].value.id == own[k].currentStationId &&
                resp.stations[k].value in c.findByIds(AllStationIds(lines, GroupByLine(FetchAll(c.findByLineId, lines))))
    ensures GetList(c, lines).Success? ==>
              var resp := GetList(c, lines).value[i];
              var own := OfLine(FetchAll(c.findByLineId, lines), lines[i].id);
              var found := c.findByIds(AllStationIds(lines, GroupByLine(FetchAll(c.findByLineId, lines))));
              forall k :: 0 <= k < |own| ==>
                (resp.stations[k].None? <==> own[k].currentStationId !in IdsOf(found))
  {
    var records := FetchAll(c.findByLineId, lines);
    var grouped := GroupByLine(records);
    GroupByLineIsFilter(records, lines[i].id);
    var ids := AllStationIds(lines, grouped);
    var found := c.findByIds(ids);
    var r := ToStationMap(found);
    if r.Success? {
      var m := r.value;
      forall id | id in m ensures m[id].id == id && m[id] in found {
        var j :| 0 <= j < |found| && found[j].id == id;
        assert m[found[j].id] == found[j];
      }
    }
  }

  /** Everything `getList` asks `findByIds` for comes from the grouped lists of the
      listed lines, and every id in those lists is asked for. */
  lemma {:induction false} AllStationIdsMembers(lines: seq<Line>, grouped: map<LineId, seq<StationId>>, x: StationId)
    requires forall i :: 0 <= i < |lines| ==> lines[i].id in grouped
    ensures x in AllStationIds(lines, grouped) <==>
              exists i :: 0 <= i < |lines| && x in grouped[lines[i].id]
  {
    if lines != [] {
      var prefix := lines[..|lines| - 1];
      assert forall i :: 0 <= i < |prefix| ==> prefix[i] == lines[i];
      AllStationIdsMembers(prefix, grouped, x);
      if x in grouped[lines[|lines| - 1].id] {
        assert x in AllStationIds(lines, grouped);
      }
    }
  }

  lemma {:induction false} AllStationIdsConcat(a: seq<Line>, b: seq<Line>, grouped: map<LineId, seq<StationId>>)
    requires forall i :: 0 <= i < |a| ==> a[i].id in grouped
    requires forall i :: 0 <= i < |b| ==> b[i].id in grouped
    ensures forall i :: 0 <= i < |a + b| ==> (a + b)[i].id in grouped
    ensures AllStationIds(a + b, grouped) == AllStationIds(a, grouped) + AllStationIds(b, grouped)
    decreases |b|
  {
    if b == [] {
      assert a + b == a;
    } else {
      var prefix := b[..|b| - 1];
      assert (a + b)[..|a + b| - 1] == a + prefix;
      assert (a + b)[|a + b| - 1] == b[|b| - 1];
      AllStationIdsConcat(a, prefix, grouped);
    }
  }

  /** All station ids go to `findByIds` in one call, line by line in list order:
      the ids of line `i` come after those of every earlier line and before those
      of every later one. */
  lemma {:induction false} AllStationIdsOrder(lines: seq<Line>, grouped: map<LineId, seq<StationId>>, i: nat)
    requires forall j :: 0 <= j < |lines| ==> lines[j].id in grouped
    requires i < |lines|
    ensures AllStationIds(lines, grouped) ==
              AllStationIds(lines[..i], grouped) + grouped[lines[i].id] + AllStationIds(lines[i + 1..], grouped)
  {
    var before, here, after := lines[..i], [lines[i]], lines[i + 1..];
    assert lines == before + here + after;
    assert forall j :: 0 <= j < |before| ==> before[j] == lines[j];
    assert forall j :: 0 <= j < |after| ==> after[j] == lines[i + 1 + j];
    assert AllStationIds(here, grouped) == grouped[lines[i].id] by {
      assert here[..0] == [];
    }
    AllStationIdsConcat(before, here, grouped);
    AllStationIdsConcat(before + here, after, grouped);
  }

  /** `getList` fails exactly when the station service returns some station id twice. */
  lemma GetListFails(c: Collaborators, lines: seq<Line>)
    requires EachLineHasSection(c, lines)
    ensures GetList(c, lines).Failure? <==>
              !DistinctIds(c.findByIds(AllStationIds(lines, GroupByLine(FetchAll(c.findByLineId, lines)))))
    ensures GetList(c, lines).Failure? ==> GetList(c, lines).error.DuplicateStationKey?
  {
  }

  /** When the line-section service answers each line with its own records and the
      lines are listed once each, `getList` asks for the same station ids per line
      as `getById`, and its precondition holds exactly when every line has a record. */
  lemma GetListAgreesWithGetById(c: Collaborators, lines: seq<Line>, i: nat)
    requires OwnRecordsOnly(c, lines) && DistinctLineIds(lines)
    requires i < |lines|
    ensures var grouped := GroupByLine(FetchAll(c.findByLineId, lines));
            (lines[i].id in grouped <==> c.findByLineId(lines[i].id) != []) &&
            (lines[i].id in grouped ==> grouped[lines[i].id] == StationIdsOfLine(c, lines[i].id))
  {
    FetchAllOfLine(c, lines, lines[i].id);
    GroupByLineIsFilter(FetchAll(c.findByLineId, lines), lines[i].id);
  }

  /** `getById` hands `findByIds` one id per stored record of the line, in the order
      the records are returned, and answers with what `findByIds` found, in order. */
  lemma GetByIdStations(c: Collaborators, id: LineId)
    requires c.getLine(id).Some?
    ensures |StationIdsOfLine(c, id)| == |c.findByLineId(id)|
    ensures forall k :: 0 <= k < |c.findByLineId(id)| ==>
              StationIdsOfLine(c, id)[k] == c.findByLineId(id)[k].currentStationId
    ensures var found := c.findByIds(StationIdsOfLine(c, id));
            |GetById(c, id).value.stations| == |found| &&
            forall k :: 0 <= k < |found| ==> GetById(c, id).value.stations[k] == Some(found[k])
  {
  }

  // ---------------------------------------------------------------------------
  // The write paths

  /** A call the facade makes on a collaborator. */
  datatype Call =
    | GetStation(stationId: StationId)
    | CreateLine(request: LineRequest)
    | CreateSection(lineId: LineId, upStationId: StationId, downStationId: StationId, distance: int)
    | UpdateLine(lineId: LineId, request: LineRequest)
    | DeleteLine(lineId: LineId)
  {
    /** Calls that change stored data (all but station lookups). */
    predicate Mutates() { !GetStation? }
  }

  /** The calls `create(request)` makes when the line service assigns id `newId`:
      both station lookups, and only if both stations exist, the line and then its
      initial section. */
  function CreateCalls(registry: map<StationId, Station>, request: LineRequest, newId: LineId): seq<Call>
  {
    var up, down := request.upStationId, request.downStationId;
    if up !in registry then [GetStation(up)]
    else if down !in registry then [GetStation(up), GetStation(down)]
    else [GetStation(up), GetStation(down), CreateLine(request),
          CreateSection(newId, up, down, request.distance)]
  }

  /** The calls `update(id, request)` makes. */
  function UpdateCalls(registry: map<StationId, Station>, id: LineId, request: LineRequest): seq<Call>
  {
    var up, down := request.upStationId, request.downStationId;
    if up !in registry then [GetStation(up)]
    else if down !in registry then [GetStation(up), GetStation(down)]
    else [GetStation(up), GetStation(down), UpdateLine(id, request)]
  }

  /** `create` looks up both stations before anything is stored, stores data only
      when both exist, and then creates the line and registers exactly one section
      (one is registered, and every registered section is the last call): the new line's
      initial section from the requested up station to the requested down station,
      which seeds a chain of exactly those two stations. */
  lemma CreateCallOrder(registry: map<StationId, Station>, request: LineRequest, newId: LineId)
    ensures var calls := CreateCalls(registry, request, newId);
            (forall k :: 0 <= k < |calls| && calls[k].Mutates() ==>
               2 <= k && calls[0] == GetStation(request.upStationId)
                      && calls[1] == GetStation(request.downStationId))
    ensures var calls := CreateCalls(registry, request, newId);
            (exists k :: 0 <= k < |calls| && calls[k].Mutates()) <==>
              request.upStationId in registry && request.downStationId in registry
    ensures var calls := CreateCalls(registry, request, newId);
            request.upStationId in registry && request.downStationId in registry ==>
              |calls| == 4 && calls[2] == CreateLine(request) &&
              calls[3] == CreateSection(newId, request.upStationId, request.downStationId, request.distance)
    ensures var calls := CreateCalls(registry, request, newId);
            forall k :: 0 <= k < |calls| && calls[k].CreateSection? ==>
              k == |calls| - 1 && calls[k - 1] == CreateLine(request) &&
              calls[k] == CreateSection(newId, request.upStationId, request.downStationId, request.distance) &&
              StationsOf(Seed(calls[k].upStationId, calls[k].downStationId, calls[k].distance))
                == [request.upStationId, request.downStationId]
  {
    var calls := CreateCalls(registry, request, newId);
    if request.upStationId in registry && request.downStationId in registry {
      assert calls[2].Mutates();
    }
  }

  /** `update` looks up both stations and updates the line only if both exist. */
  lemma UpdateCallOrder(registry: map<StationId, Station>, id: LineId, request: LineRequest)
    ensures var calls := UpdateCalls(registry, id, request);
            (forall k :: 0 <= k < |calls| && calls[k].Mutates() ==>
               k == 2 && calls[k] == UpdateLine(id, request) &&
               calls[0] == GetStation(request.upStationId) &&
               calls[1] == GetStation(request.downStationId))
    ensures var calls := UpdateCalls(registry, id, request);
            (exists k :: 0 <= k < |calls| && calls[k].Mutates()) <==>
              request.upStationId in registry && request.downStationId in registry
  {
    var calls := UpdateCalls(registry, id, request);
    if request.upStationId in registry && request.downStationId in registry {
      assert calls[2].Mutates();
    }
  }

  /** The facade over a station registry, recording the calls it makes on the
      station, line and line-section services. */
  class LineFacadeService {
    /** The stations the station service knows, by id. */
    const registry: map<StationId, Station>
    /** Every call made so far on those services, oldest first. */
    var calls: seq<Call>

    /** The station registered under an id has that id. */
    ghost predicate Valid()
      reads this
    {
      forall id :: id in registry ==> registry[id].id == id
    }

    constructor (registry: map<StationId, Station>)
      requires forall id :: id in registry ==> registry[id].id == id
      ensures Valid()
      ensures this.registry == registry && calls == []
    {
      this.registry := registry;
      calls := [];
    }

    /** `stationService.getStation(id)`, which throws for an unknown station. */
    method GetStationById(id: StationId) returns (r: Result<Station, FacadeError>)
      requires Valid()
      modifies this
      ensures Valid()
      ensures calls == old(calls) + [GetStation(id)]
      ensures r == if id in registry then Success(registry[id]) else Failure(StationNotFound(id))
    {
      calls := calls + [GetStation(id)];
      if id in registry {
        r := Success(registry[id]);
      } else {
        r := Failure(StationNotFound(id));
      }
    }

    /** `create(request)`, the line service assigning id `newId` to the new line. */
    method Create(request: LineRequest, newId: LineId) returns (r: Result<LineResponse, FacadeError>)
      requires Valid()
      modifies this
      ensures Valid()
      ensures calls == old(calls) + CreateCalls(registry, request, newId)
      ensures r.Success? <==> request.upStationId in registry && request.downStationId in registry
      ensures r.Failure? ==> r.error == StationNotFound(
                if request.upStationId !in registry then request.upStationId else request.downStationId)
      ensures r.Success? ==>
                r.value.line == Line(newId, request.name, request.color) &&
                r.value.stations == [Some(registry[request.upStationId]), Some(registry[request.downStationId])] &&
                r.value.stations[0].value.id == request.upStationId &&
                r.value.stations[1].value.id == request.downStationId
    {
      var up := GetStationById(request.upStationId);
      if up.Failure? {
        return Failure(up.error);
      }
      var down := GetStationById(request.downStationId);
      if down.Failure? {
        return Failure(down.error);
      }
      var line := Line(newId, request.name, request.color);
      calls := calls + [CreateLine(request)];
      calls := calls + [CreateSection(line.id, up.value.id, down.value.id, request.distance)];
      r := Success(LineResponse(line, [Some(up.value), Some(down.value)]));
    }

    /** `update(id, request)`. */
    method Update(id: LineId, request: LineRequest) returns (r: Result<(), FacadeError>)
      requires Valid()
      modifies this
      ensures Valid()
      ensures calls == old(calls) + UpdateCalls(registry, id, request)
      ensures r.Success? <==> request.upStationId in registry && request.downStationId in registry
      ensures r.Failure? ==> r.error == StationNotFound(
                if request.upStationId !in registry then request.upStationId else request.downStationId)
    {
      var up := GetStationById(request.upStationId);
      if up.Failure? {
        return Failure(up.error);
      }
      var down := GetStationById(request.downStationId);
      if down.Failure? {
        return Failure(down.error);
      }
      calls := calls + [UpdateLine(id, request)];
      r := Success(());
    }

    /** `delete(id)`: a single call on the line service. */
    method Delete(id: LineId)
      requires Valid()
      modifies this
      ensures Valid()
      ensures calls == old(calls) + [DeleteLine(id)]
    {
      calls := calls + [DeleteLine(id)];
    }
  }
}
