/**
 * The section acceptance scenarios as clients of `LineChain`.
 *
 * Every scenario starts, like the scenarios' shared setUp, from four distinct
 * registered stations and one line `[first, second]` created with distance 10.
 * Each method then issues the scenario's requests and returns what the line
 * answered and the station ids the line reads back afterwards.
 */
module SectionAcceptance {
  import opened Sections

  /** The four stations registered before each scenario are different stations. */
  predicate FourDistinct(first: StationId, second: StationId, third: StationId, fourth: StationId)
  {
    first != second && first != third && first != fourth &&
    second != third && second != fourth && third != fourth
  }

  /** Registering `(second, third)` on `[first, second]` is accepted and makes
      `third` the third and last station. */
  method CreateStationCase0(first: StationId, second: StationId, third: StationId, fourth: StationId, d: int)
    returns (o: Outcome, stations: seq<StationId>)
    requires FourDistinct(first, second, third, fourth)
    ensures o == Ok
    ensures |stations| == 3 && stations[2] == third
    ensures stations == [first, second, third]
  {
    var line := new LineChain(first, second, 10);
    o := line.CreateSection(second, third, d);
    stations := line.Stations();
  }

  /** Registering `(second, third)` and then `(third, fourth)` gives four stations
      with `fourth` last. */
  method CreateStationCase1(first: StationId, second: StationId, third: StationId, fourth: StationId, d1: int, d2: int)
    returns (o1: Outcome, o2: Outcome, stations: seq<StationId>)
    requires FourDistinct(first, second, third, fourth)
    ensures o1 == Ok && o2 == Ok
    ensures |stations| == 4 && stations[3] == fourth
    ensures stations == [first, second, third, fourth]
  {
    var line := new LineChain(first, second, 10);
    o1 := line.CreateSection(second, third, d1);
    o2 := line.CreateSection(third, fourth, d2);
    stations := line.Stations();
  }

  /** A section whose up station `third` is not the down terminus is rejected and
      the line stays `[first, second]`. */
  method CreateStationCase2(first: StationId, second: StationId, third: StationId, fourth: StationId, d: int)
    returns (o: Outcome, stations: seq<StationId>)
    requires FourDistinct(first, second, third, fourth)
    ensures o == Rejected(UpStationNotTerminus)
    ensures stations == [first, second]
  {
    var line := new LineChain(first, second, 10);
    o := line.CreateSection(third, fourth, d);
    stations := line.Stations();
  }

  /** A section `(second, first)` whose down station is already on the line is
      rejected and the line stays `[first, second]`. */
  method CreateStationCase3(first: StationId, second: StationId, third: StationId, fourth: StationId, d: int)
    returns (o: Outcome, stations: seq<StationId>)
    requires FourDistinct(first, second, third, fourth)
    ensures o == Rejected(DownStationOnLine)
    ensures stations == [first, second]
  {
    var line := new LineChain(first, second, 10);
    o := line.CreateSection(second, first, d);
    stations := line.Stations();
  }

  /** Removing the down terminus `fourth` of `[first, second, third, fourth]` is
      accepted, leaves three stations with `third` last, and restores the line as
      it was after the first registration. */
  method DeleteStationCase0(first: StationId, second: StationId, third: StationId, fourth: StationId, d1: int, d2: int)
    returns (o: Outcome, afterFirst: seq<StationId>, stations: seq<StationId>)
    requires FourDistinct(first, second, third, fourth)
    ensures o == Ok
    ensures |stations| == 3 && stations[2] == third
    ensures stations == afterFirst == [first, second, third]
  {
    var line := new LineChain(first, second, 10);
    var o1 := line.CreateSection(second, third, d1);
    afterFirst := line.Stations();
    var o2 := line.CreateSection(third, fourth, d2);
    o := line.DeleteSection(fourth);
    stations := line.Stations();
  }

  /** Removing `third`, which is on the line but not its down terminus, is rejected
      and the line keeps its four stations. */
  method DeleteStationCase1(first: StationId, second: StationId, third: StationId, fourth: StationId, d1: int, d2: int)
    returns (o: Outcome, stations: seq<StationId>)
    requires FourDistinct(first, second, third, fourth)
    ensures o == Rejected(NotTerminus)
    ensures stations == [first, second, third, fourth]
  {
    var line := new LineChain(first, second, 10);
    var o1 := line.CreateSection(second, third, d1);
    var o2 := line.CreateSection(third, fourth, d2);
    o := line.DeleteSection(third);
    stations := line.Stations();
  }

  /** On a line with a single section even its down terminus `second` cannot be
      removed. */
  method DeleteStationCase2(first: StationId, second: StationId, third: StationId, fourth: StationId)
    returns (o: Outcome, stations: seq<StationId>)
    requires FourDistinct(first, second, third, fourth)
    ensures o == Rejected(OnlyOneSection)
    ensures stations == [first, second]
  {
    var line := new LineChain(first, second, 10);
    o := line.DeleteSection(second);
    stations := line.Stations();
  }
}
