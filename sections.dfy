/**
 * The section chain of one subway line.
 *
 * A line is a chain of sections `(up, down, distance)`: each section's down
 * station is the next section's up station, and no station occurs twice.
 * The chain only grows at its down terminus (a new section must start at the
 * current down terminus and end at a station not yet on the line) and only
 * shrinks there (the down terminus may be removed while the line has more than
 * one section).  A rejected request leaves the line as it was.
 */
module Sections {

  /** Station ids are Java `Long` values; no arithmetic is done on them. */
  type StationId = int

  /** One directed, distance-weighted section of a line. */
  datatype Section = Section(up: StationId, down: StationId, distance: int)

  /** Why a request against the chain was refused (all answered with 400). */
  datatype Rejection =
    | UpStationNotTerminus   // the new section does not start at the down terminus
    | DownStationOnLine      // the new section ends at a station already on the line
    | OnlyOneSection         // removal would leave a line without a section
    | NotTerminus            // the station to remove is not the down terminus

  /** What a request against a line answers. */
  datatype Outcome = Ok | Rejected(reason: Rejection)

  /** The result of a chain operation on values: the new sections, or a refusal. */
  datatype Step = Accepted(sections: seq<Section>) | Refused(reason: Rejection)

  /** The down stations of `ss`, in chain order. */
  function Downs(ss: seq<Section>): (ds: seq<StationId>)
    ensures |ds| == |ss|
    ensures forall i :: 0 <= i < |ss| ==> ds[i] == ss[i].down
  {
    if ss == [] then [] else Downs(ss[..|ss| - 1]) + [ss[|ss| - 1].down]
  }

  /** The stations of a line from the up terminus to the down terminus. */
  function StationsOf(ss: seq<Section>): seq<StationId>
    requires |ss| > 0
  {
    [ss[0].up] + Downs(ss)
  }

  /** The down terminus: the down station of the last section. */
  function Terminus(ss: seq<Section>): StationId
    requires |ss| > 0
  {
    ss[|ss| - 1].down
  }

  predicate Distinct(s: seq<StationId>)
  {
    forall i, j :: 0 <= i < j < |s| ==> s[i] != s[j]
  }

  /** Consecutive sections meet: each down station is the next up station. */
  predicate Linked(ss: seq<Section>)
  {
    forall i :: 0 <= i < |ss| - 1 ==> ss[i].down == ss[i + 1].up
  }

  /** A line's sections form one simple path of at least one section. */
  predicate WellFormed(ss: seq<Section>)
  {
    |ss| > 0 && Linked(ss) && Distinct(StationsOf(ss))
  }

  /** The chain a new line starts with: its single initial section. */
  function Seed(up: StationId, down: StationId, distance: int): seq<Section>
  {
    [Section(up, down, distance)]
  }

  /** Registering section `s` at the end of the line `ss`. */
  function TryAppend(ss: seq<Section>, s: Section): Step
    requires |ss| > 0
  {
    if s.up != Terminus(ss) then Refused(UpStationNotTerminus)
    else if s.down in StationsOf(ss) then Refused(DownStationOnLine)
    else Accepted(ss + [s])
  }

  /** Removing `station` from the line `ss`. */
  function TryRemove(ss: seq<Section>, station: StationId): Step
    requires |ss| > 0
  {
    if |ss| == 1 then Refused(OnlyOneSection)
    else if station != Terminus(ss) then Refused(NotTerminus)
    else Accepted(ss[..|ss| - 1])
  }

  /** Registering the sections `reqs` one after the other, stopping at the first refusal. */
  function TryAppendAll(ss: seq<Section>, reqs: seq<Section>): Step
    requires |ss| > 0
    decreases |reqs|
  {
    if reqs == [] then Accepted(ss)
    else match TryAppend(ss, reqs[0])
      case Refused(reason) => Refused(reason)
      case Accepted(next) => TryAppendAll(next, reqs[1..])
  }

  /** The answer a request gives for a step. */
  function OutcomeOf(st: Step): (o: Outcome)
    ensures o.Ok? <==> st.Accepted?
  {
    match st
    case Accepted(_) => Ok
    case Refused(reason) => Rejected(reason)
  }

  // ---------------------------------------------------------------------------
  // Properties of the chain operations

  lemma {:induction false} StationsOfAppend(ss: seq<Section>, s: Section)
    requires |ss| > 0
    ensures StationsOf(ss + [s]) == StationsOf(ss) + [s.down]
  {
    assert (ss + [s])[..|ss|] == ss;
  }

  /** The last station of the line is the down station of its last section, and a
      line of `n` sections has `n + 1` stations. */
  lemma TerminusIsLastStation(ss: seq<Section>)
    requires |ss| > 0
    ensures |StationsOf(ss)| == |ss| + 1
    ensures StationsOf(ss)[|ss|] == Terminus(ss)
  {
  }

  /** A new line seeded with one section has exactly its two stations, and is a
      valid chain exactly when they differ. */
  lemma SeedStations(up: StationId, down: StationId, distance: int)
    ensures StationsOf(Seed(up, down, distance)) == [up, down]
    ensures WellFormed(Seed(up, down, distance)) <==> up != down
  {
    var st := StationsOf(Seed(up, down, distance));
    assert st == [up, down];
    assert up == down ==> st[0] == st[1];
  }

  /** Append legality: a section is registered exactly when it starts at the down
      terminus and ends at a station not on the line; the new station becomes the
      terminus and the line stays a simple path.  Refusals name the broken rule. */
  lemma AppendRule(ss: seq<Section>, s: Section)
    requires WellFormed(ss)
    ensures TryAppend(ss, s).Accepted? <==>
              s.up == StationsOf(ss)[|ss|] && s.down !in StationsOf(ss)
    ensures s.up != StationsOf(ss)[|ss|] ==> TryAppend(ss, s) == Refused(UpStationNotTerminus)
    ensures s.up == StationsOf(ss)[|ss|] && s.down in StationsOf(ss) ==>
              TryAppend(ss, s) == Refused(DownStationOnLine)
    ensures TryAppend(ss, s).Accepted? ==>
              var next := TryAppend(ss, s).sections;
              WellFormed(next) && StationsOf(next) == StationsOf(ss) + [s.down]
                && next == ss + [s]
  {
    TerminusIsLastStation(ss);
    if TryAppend(ss, s).Accepted? {
      AppendKeepsChain(ss, s);
    }
  }

  /** An accepted append keeps the line a simple path. */
  lemma AppendKeepsChain(ss: seq<Section>, s: Section)
    requires WellFormed(ss)
    requires s.up == Terminus(ss) && s.down !in StationsOf(ss)
    ensures WellFormed(ss + [s])
    ensures StationsOf(ss + [s]) == StationsOf(ss) + [s.down]
  {
    var next := ss + [s];
    StationsOfAppend(ss, s);
    assert Linked(next) by {
      forall i | 0 <= i < |next| - 1 ensures next[i].down == next[i + 1].up {
        if i < |ss| - 1 {
          assert next[i] == ss[i] && next[i + 1] == ss[i + 1];
        } else {
          assert next[i] == ss[|ss| - 1] && next[i + 1] == s;
        }
      }
    }
    var st := StationsOf(ss);
    assert Distinct(st + [s.down]) by {
      forall i, j | 0 <= i < j < |st| + 1 ensures (st + [s.down])[i] != (st + [s.down])[j] {
        if j == |st| {
          assert (st + [s.down])[i] == st[i];
        }
      }
    }
  }

  /** Remove legality: on a line of more than one section a station is removed
      exactly when it is the down terminus, the previous station becomes the
      terminus and the line stays a simple path; a one-section line refuses
      every removal. */
  lemma RemoveRule(ss: seq<Section>, station: StationId)
    requires WellFormed(ss)
    ensures |ss| == 1 ==> TryRemove(ss, station) == Refused(OnlyOneSection)
    ensures TryRemove(ss, station).Accepted? <==>
              |StationsOf(ss)| > 2 && station == StationsOf(ss)[|ss|]
    ensures |ss| > 1 && station != StationsOf(ss)[|ss|] ==>
              TryRemove(ss, station) == Refused(NotTerminus)
    ensures TryRemove(ss, station).Accepted? ==>
              var prev := TryRemove(ss, station).sections;
              WellFormed(prev) && StationsOf(prev) == StationsOf(ss)[..|ss|]
  {
    TerminusIsLastStation(ss);
    if TryRemove(ss, station).Accepted? {
      var prev := ss[..|ss| - 1];
      assert ss == prev + [ss[|ss| - 1]];
      StationsOfAppend(prev, ss[|ss| - 1]);
      var st := StationsOf(prev);
      assert StationsOf(ss) == st + [ss[|ss| - 1].down];
      assert StationsOf(ss)[..|ss|] == st;
      assert Distinct(st) by {
        forall i, j | 0 <= i < j < |st| ensures st[i] != st[j] {
          assert st[i] == StationsOf(ss)[i] && st[j] == StationsOf(ss)[j];
        }
      }
      assert Linked(prev) by {
        forall i | 0 <= i < |prev| - 1 ensures prev[i].down == prev[i + 1].up {
          assert prev[i] == ss[i] && prev[i + 1] == ss[i + 1];
        }
      }
    }
  }

  /** Removing the station just appended restores the previous line. */
  lemma AppendThenRemove(ss: seq<Section>, s: Section)
    requires WellFormed(ss)
    requires TryAppend(ss, s).Accepted?
    ensures TryRemove(TryAppend(ss, s).sections, s.down) == Accepted(ss)
  {
    assert (ss + [s])[..|ss|] == ss;
  }

  /** Re-registering the section just removed restores the previous line. */
  lemma RemoveThenAppend(ss: seq<Section>, station: StationId)
    requires WellFormed(ss)
    requires TryRemove(ss, station).Accepted?
    ensures TryAppend(TryRemove(ss, station).sections, ss[|ss| - 1]) == Accepted(ss)
  {
    var prev := ss[..|ss| - 1];
    var last := ss[|ss| - 1];
    assert ss == prev + [last];
    StationsOfAppend(prev, last);
    TerminusIsLastStation(ss);
    var st := StationsOf(prev);
    assert StationsOf(ss) == st + [last.down];
    assert last.up == prev[|prev| - 1].down == Terminus(prev);
    assert last.down !in st by {
      forall k | 0 <= k < |st| ensures st[k] != last.down {
        assert StationsOf(ss)[k] == st[k] && StationsOf(ss)[|st|] == last.down;
      }
    }
    assert TryRemove(ss, station).sections == prev;
  }

  /** Ordering and no duplication under growth: after a run of accepted appends the
      line lists its old stations followed by the new down stations, in the order
      they were linked, each station once. */
  lemma AppendAllGrows(ss: seq<Section>, reqs: seq<Section>)
    requires WellFormed(ss)
    requires TryAppendAll(ss, reqs).Accepted?
    ensures WellFormed(TryAppendAll(ss, reqs).sections)
    ensures TryAppendAll(ss, reqs).sections == ss + reqs
    ensures StationsOf(TryAppendAll(ss, reqs).sections) == StationsOf(ss) + Downs(reqs)
  {
    AppendAllKeepsChain(ss, reqs);
    StationsOfConcat(ss, reqs);
  }

  /** Accepted appends add their sections at the end and keep the line a simple path. */
  lemma {:induction false} AppendAllKeepsChain(ss: seq<Section>, reqs: seq<Section>)
    requires WellFormed(ss)
    requires TryAppendAll(ss, reqs).Accepted?
    ensures WellFormed(TryAppendAll(ss, reqs).sections)
    ensures TryAppendAll(ss, reqs).sections == ss + reqs
    decreases |reqs|
  {
    if reqs != [] {
      var next := ss + [reqs[0]];
      assert TryAppend(ss, reqs[0]) == Accepted(next);
      AppendKeepsChain(ss, reqs[0]);
      AppendAllKeepsChain(next, reqs[1..]);
      assert next + reqs[1..] == ss + reqs;
    }
  }

  lemma {:induction false} StationsOfConcat(ss: seq<Section>, reqs: seq<Section>)
    requires |ss| > 0
    ensures StationsOf(ss + reqs) == StationsOf(ss) + Downs(reqs)
    decreases |reqs|
  {
    if reqs == [] {
      assert ss + reqs == ss;
    } else {
      var prefix := reqs[..|reqs| - 1];
      var last := reqs[|reqs| - 1];
      assert ss + reqs == (ss + prefix) + [last];
      StationsOfConcat(ss, prefix);
      StationsOfAppend(ss + prefix, last);
    }
  }

  // ---------------------------------------------------------------------------
  // The line as an object whose sections are registered and removed in place

  /** The sections of one line, registered and removed one request at a time. */
  class LineChain {
    var sections: seq<Section>

    ghost predicate Valid()
      reads this
    {
      WellFormed(sections)
    }

    /** The line's stations from the up terminus to the down terminus. */
    function Stations(): (s: seq<StationId>)
      reads this
      requires Valid()
      ensures |s| == |sections| + 1 && Distinct(s)
    {
      StationsOf(sections)
    }

    /** A new line with its single initial section from `up` to `down`. */
    constructor (up: StationId, down: StationId, distance: int)
      requires up != down
      ensures Valid()
      ensures sections == Seed(up, down, distance)
      ensures Stations() == [up, down]
    {
      sections := Seed(up, down, distance);
    }

    /** Registers the section `(up, down, distance)` at the down terminus. */
    method CreateSection(up: StationId, down: StationId, distance: int) returns (o: Outcome)
      requires Valid()
      modifies this
      ensures Valid()
      ensures o == OutcomeOf(TryAppend(old(sections), Section(up, down, distance)))
      ensures o.Ok? <==> up == old(Stations())[|old(sections)|] && down !in old(Stations())
      ensures sections == if o.Ok? then old(sections) + [Section(up, down, distance)] else old(sections)
      ensures Stations() == if o.Ok? then old(Stations()) + [down] else old(Stations())
    {
      AppendRule(sections, Section(up, down, distance));
      if up != sections[|sections| - 1].down {
        o := Rejected(UpStationNotTerminus);
      } else if down in StationsOf(sections) {
        o := Rejected(DownStationOnLine);
      } else {
        sections := sections + [Section(up, down, distance)];
        o := Ok;
      }
    }

    /** Removes `station`, which must be the down terminus of a line of more than
        one section. */
    method DeleteSection(station: StationId) returns (o: Outcome)
      requires Valid()
      modifies this
      ensures Valid()
      ensures o == OutcomeOf(TryRemove(old(sections), station))
      ensures o.Ok? <==> |old(sections)| > 1 && station == old(Stations())[|old(sections)|]
      ensures sections == if o.Ok? then old(sections)[..|old(sections)| - 1] else old(sections)
      ensures Stations() == if o.Ok? then old(Stations())[..|old(sections)|] else old(Stations())
    {
      RemoveRule(sections, station);
      if |sections| == 1 {
        o := Rejected(OnlyOneSection);
      } else if station != sections[|sections| - 1].down {
        o := Rejected(NotTerminus);
      } else {
        sections := sections[..|sections| - 1];
        o := Ok;
      }
    }
  }
}
