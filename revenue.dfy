/**
 * RevenueAggregator (`simulate_annual_revenue`): for every season in the
 * given order and every room type of the inventory, the blended rate, the
 * room-nights, the occupied nights and the revenue, with season totals and the
 * annual total.
 *
 * The inventory dictionary is a sequence of room types in insertion order
 * (the dictionary key is the room type's name). The per-season result is an
 * insertion-ordered dictionary keyed by season name: a sequence of entries
 * where storing an existing name replaces that entry in place.
 */
module Revenue {
  import opened Numeric
  import opened Pricing

  datatype RoomType = RoomType(name: string, count: int)

  datatype Season = Season(
    name: string,
    days: int,
    occupancy: map<string, real>,
    pricing: map<string, SeasonPricing>)

  /** One entry of a season's `by_room_type` breakdown. */
  datatype RoomRevenue = RoomRevenue(
    roomType: string,
    equivalentNightlyRate: real,
    occupancyRate: real,
    totalRoomNights: int,
    occupiedNights: real,
    revenue: real)

  /** One entry of `per_season`. */
  datatype SeasonRevenue = SeasonRevenue(name: string, revenue: real, byRoomType: seq<RoomRevenue>)

  datatype RevenueResult = RevenueResult(perSeason: seq<SeasonRevenue>, totalRevenue: real)

  predicate DistinctSeasons(seasons: seq<Season>) {
    forall i, j :: 0 <= i < j < |seasons| ==> seasons[i].name != seasons[j].name
  }

  predicate DistinctSeasonNames(entries: seq<SeasonRevenue>) {
    forall i, j :: 0 <= i < j < |entries| ==> entries[i].name != entries[j].name
  }

  /** `season.occupancy.get(name, 0.0)` */
  function OccupancyOf(s: Season, name: string): real {
    if name in s.occupancy then s.occupancy[name] else 0.0
  }

  /** The breakdown entry of a room type that has a price in the season. */
  function RoomLine(rt: RoomType, s: Season): RoomRevenue
    requires rt.name in s.pricing
  {
    var rate := EquivalentNightlyRate(s.pricing[rt.name]);
    var occ := OccupancyOf(s, rt.name);
    var nights := rt.count * s.days;
    RoomRevenue(rt.name, rate, occ, nights, nights as real * occ, (nights as real * occ) * rate)
  }

  /** The breakdown of one season, room types taken in inventory order, unpriced ones skipped. */
  function Breakdown(rooms: seq<RoomType>, s: Season): seq<RoomRevenue>
  {
    if rooms == [] then []
    else
      var rt := rooms[|rooms| - 1];
      var prev := Breakdown(rooms[..|rooms| - 1], s);
      if rt.name in s.pricing then prev + [RoomLine(rt, s)] else prev
  }

  function RevenueSum(lines: seq<RoomRevenue>): real {
    if lines == [] then 0.0 else RevenueSum(lines[..|lines| - 1]) + lines[|lines| - 1].revenue
  }

  function SeasonLine(rooms: seq<RoomType>, s: Season): SeasonRevenue {
    SeasonRevenue(s.name, RevenueSum(Breakdown(rooms, s)), Breakdown(rooms, s))
  }

  /** Position of the entry named `name`, or -1. */
  function IndexOfName(entries: seq<SeasonRevenue>, name: string): (k: int)
    ensures -1 <= k < |entries|
    ensures k >= 0 ==> entries[k].name == name
    ensures k < 0 ==> forall j :: 0 <= j < |entries| ==> entries[j].name != name
  {
    if entries == [] then -1
    else if entries[|entries| - 1].name == name then |entries| - 1
    else IndexOfName(entries[..|entries| - 1], name)
  }

  /** `d[e.name] = e` on an insertion-ordered dictionary: replace in place, or append. */
  function Put(entries: seq<SeasonRevenue>, e: SeasonRevenue): seq<SeasonRevenue> {
    var k := IndexOfName(entries, e.name);
    if k >= 0 then entries[k := e] else entries + [e]
  }

  /** `d.get(name)` on the per-season dictionary. */
  function FindSeason(entries: seq<SeasonRevenue>, name: string): Option<SeasonRevenue> {
    var k := IndexOfName(entries, name);
    if k >= 0 then Some(entries[k]) else None
  }

  function PerSeason(rooms: seq<RoomType>, seasons: seq<Season>): seq<SeasonRevenue> {
    if seasons == [] then []
    else Put(PerSeason(rooms, seasons[..|seasons| - 1]), SeasonLine(rooms, seasons[|seasons| - 1]))
  }

  function TotalRevenue(rooms: seq<RoomType>, seasons: seq<Season>): real {
    if seasons == [] then 0.0
    else TotalRevenue(rooms, seasons[..|seasons| - 1]) + SeasonLine(rooms, seasons[|seasons| - 1]).revenue
  }

  method SimulateAnnualRevenue(rooms: seq<RoomType>, seasons: seq<Season>) returns (result: RevenueResult)
    ensures result.perSeason == PerSeason(rooms, seasons)
    ensures result.totalRevenue == TotalRevenue(rooms, seasons)
  {
    var perSeason: seq<SeasonRevenue> := [];
    var total := 0.0;
    var i := 0;
    while i < |seasons|
      invariant 0 <= i <= |seasons|
      invariant perSeason == PerSeason(rooms, seasons[..i])
      invariant total == TotalRevenue(rooms, seasons[..i])
    {
      var season := seasons[i];
      var seasonRevenue := 0.0;
      var breakdown: seq<RoomRevenue> := [];
      var j := 0;
      while j < |rooms|
        invariant 0 <= j <= |rooms|
        invariant breakdown == Breakdown(rooms[..j], season)
        invariant seasonRevenue == RevenueSum(breakdown)
      {
        var rt := rooms[j];
        var occRate := if rt.name in season.occupancy then season.occupancy[rt.name] else 0.0;
        if rt.name in season.pricing {
          var rate := EquivalentNightlyRate(season.pricing[rt.name]);
          var totalRoomNights := rt.count * season.days;
          var occupiedNights := totalRoomNights as real * occRate;
          var revenue := occupiedNights * rate;
          var line := RoomRevenue(rt.name, rate, occRate, totalRoomNights, occupiedNights, revenue);
          assert line == RoomLine(rt, season);
          assert (breakdown + [line])[..|breakdown|] == breakdown;
          breakdown := breakdown + [line];
          seasonRevenue := seasonRevenue + revenue;
        }
        assert rooms[..j + 1][..j] == rooms[..j] && rooms[..j + 1][j] == rt;
        assert Breakdown(rooms[..j + 1], season)
          == if rt.name in season.pricing then Breakdown(rooms[..j], season) + [RoomLine(rt, season)]
             else Breakdown(rooms[..j], season);
        j := j + 1;
      }
      assert rooms[..|rooms|] == rooms;
      perSeason := Put(perSeason, SeasonRevenue(season.name, seasonRevenue, breakdown));
      total := total + seasonRevenue;
      assert seasons[..i + 1][..i] == seasons[..i];
      i := i + 1;
    }
    assert seasons[..|seasons|] == seasons;
    result := RevenueResult(perSeason, total);
  }

  // ---------------------------------------------------------------------------
  // Properties of the breakdown
  // ---------------------------------------------------------------------------

  /** Last room type of the inventory named `name`. */
  function FindRoom(rooms: seq<RoomType>, name: string): (r: Option<RoomType>)
    ensures r.Some? ==> r.value.name == name
  {
    if rooms == [] then None
    else if rooms[|rooms| - 1].name == name then Some(rooms[|rooms| - 1])
    else FindRoom(rooms[..|rooms| - 1], name)
  }

  /** Last breakdown entry for room type `name`. */
  function FindLine(lines: seq<RoomRevenue>, name: string): Option<RoomRevenue> {
    if lines == [] then None
    else if lines[|lines| - 1].roomType == name then Some(lines[|lines| - 1])
    else FindLine(lines[..|lines| - 1], name)
  }

  /** The breakdown's entry for `name` is the line of the inventory's room type `name`, when the season prices it. */
  lemma {:induction false} BreakdownFind(rooms: seq<RoomType>, s: Season, name: string)
    ensures FindLine(Breakdown(rooms, s), name)
              == if FindRoom(rooms, name).Some? && name in s.pricing
                 then Some(RoomLine(FindRoom(rooms, name).value, s)) else None
  {
    if rooms != [] {
      var rt := rooms[|rooms| - 1];
      var prev := Breakdown(rooms[..|rooms| - 1], s);
      BreakdownFind(rooms[..|rooms| - 1], s, name);
      if rt.name in s.pricing {
        assert (prev + [RoomLine(rt, s)])[..|prev|] == prev;
      }
    }
  }

  /**
   * A room type appears in a season's breakdown exactly when it is in the
   * inventory and the season prices it; its entry then has
   * room-nights = count * days, occupied nights = room-nights * occupancy
   * (0 when the season gives no occupancy for it) and
   * revenue = occupied nights * blended rate.
   */
  lemma BreakdownEntry(rooms: seq<RoomType>, s: Season, name: string)
    ensures FindLine(Breakdown(rooms, s), name).Some? <==> FindRoom(rooms, name).Some? && name in s.pricing
    ensures FindLine(Breakdown(rooms, s), name).Some? ==>
              var line := FindLine(Breakdown(rooms, s), name).value;
              var rt := FindRoom(rooms, name).value;
              && line.roomType == name
              && line.equivalentNightlyRate == EquivalentNightlyRate(s.pricing[name])
              && line.totalRoomNights == rt.count * s.days
              && line.occupancyRate == (if name in s.occupancy then s.occupancy[name] else 0.0)
              && line.occupiedNights == line.totalRoomNights as real * line.occupancyRate
              && line.revenue == line.occupiedNights * line.equivalentNightlyRate
  {
    BreakdownFind(rooms, s, name);
  }

  /** Every breakdown entry belongs to a priced room type, and there are at most as many entries as room types. */
  lemma {:induction false} BreakdownOnlyPriced(rooms: seq<RoomType>, s: Season)
    ensures |Breakdown(rooms, s)| <= |rooms|
    ensures forall j :: 0 <= j < |Breakdown(rooms, s)| ==> Breakdown(rooms, s)[j].roomType in s.pricing
  {
    if rooms != [] {
      BreakdownOnlyPriced(rooms[..|rooms| - 1], s);
    }
  }

  /** What a room type earns in a season: count * days * occupancy * blended rate, or 0 when the season does not price it. */
  function PricedTerm(rt: RoomType, s: Season): real {
    if rt.name in s.pricing
    then (rt.count * s.days) as real * OccupancyOf(s, rt.name) * EquivalentNightlyRate(s.pricing[rt.name])
    else 0.0
  }

  /** Season revenue computed independently: the sum of `PricedTerm` over the inventory, first to last. */
  function PricedRevenue(rooms: seq<RoomType>, s: Season): real {
    if rooms == [] then 0.0 else PricedTerm(rooms[0], s) + PricedRevenue(rooms[1..], s)
  }

  lemma {:induction false} PricedRevenueSnoc(rooms: seq<RoomType>, rt: RoomType, s: Season)
    ensures PricedRevenue(rooms + [rt], s) == PricedRevenue(rooms, s) + PricedTerm(rt, s)
  {
    if rooms != [] {
      assert (rooms + [rt])[1..] == rooms[1..] + [rt];
      PricedRevenueSnoc(rooms[1..], rt, s);
    }
  }

  /** The revenue of a breakdown entry is the room type's priced term. */
  lemma RoomLineIsTerm(rt: RoomType, s: Season)
    requires rt.name in s.pricing
    ensures RoomLine(rt, s).revenue == PricedTerm(rt, s)
  {
  }

  /** A season's revenue is the sum of its breakdown, i.e. of count * days * occupancy * rate over its priced room types. */
  lemma {:induction false} SeasonRevenueIsPricedSum(rooms: seq<RoomType>, s: Season)
    ensures SeasonLine(rooms, s).revenue == PricedRevenue(rooms, s)
  {
    if rooms != [] {
      var init := rooms[..|rooms| - 1];
      var rt := rooms[|rooms| - 1];
      SeasonRevenueIsPricedSum(init, s);
      PricedRevenueSnoc(init, rt, s);
      assert init + [rt] == rooms;
      var prev := Breakdown(init, s);
      if rt.name in s.pricing {
        RoomLineIsTerm(rt, s);
        var lines := prev + [RoomLine(rt, s)];
        assert Breakdown(rooms, s) == lines;
        assert lines[..|lines| - 1] == prev;
      } else {
        assert Breakdown(rooms, s) == prev;
      }
    }
  }

  // ---------------------------------------------------------------------------
  // Properties of the per-season dictionary and the annual total
  // ---------------------------------------------------------------------------

  /** The last season of the list named `name` (the one whose entry survives). */
  function LastSeasonNamed(seasons: seq<Season>, name: string): Option<Season> {
    if seasons == [] then None
    else if seasons[|seasons| - 1].name == name then Some(seasons[|seasons| - 1])
    else LastSeasonNamed(seasons[..|seasons| - 1], name)
  }

  /**
   * Storing into the per-season dictionary keeps its names distinct and makes
   * the stored entry the one found: an existing name is replaced at its
   * position, a new name is appended at the end.
   */
  lemma PutFind(entries: seq<SeasonRevenue>, e: SeasonRevenue, name: string)
    requires DistinctSeasonNames(entries)
    ensures DistinctSeasonNames(Put(entries, e))
    ensures FindSeason(Put(entries, e), name) == if e.name == name then Some(e) else FindSeason(entries, name)
    ensures |Put(entries, e)| == if FindSeason(entries, e.name).Some? then |entries| else |entries| + 1
    ensures forall k :: 0 <= k < |entries| && entries[k].name == e.name ==> Put(entries, e) == entries[k := e]
    ensures (forall k :: 0 <= k < |entries| ==> entries[k].name != e.name) ==> Put(entries, e) == entries + [e]
  {
    var r := Put(entries, e);
    var k0 := IndexOfName(entries, e.name);
    var pos := if k0 >= 0 then k0 else |entries|;
    assert r[pos] == e;
    assert forall j :: 0 <= j < |r| && j != pos ==> r[j] == entries[j];
    assert DistinctSeasonNames(r);
    var k := IndexOfName(r, name);
    if e.name == name {
      assert k >= 0;
      assert k == pos;
    } else {
      var k1 := IndexOfName(entries, name);
      if k1 >= 0 {
        assert r[k1].name == name;
        assert k == k1;
      } else {
        assert k < 0;
      }
    }
  }

  /**
   * The per-season dictionary has one entry per distinct season name, and the
   * entry of a name is the result of the LAST season in the list with that
   * name: a repeated name overwrites the earlier season's entry.
   */
  lemma {:induction false} PerSeasonKeepsLastSeason(rooms: seq<RoomType>, seasons: seq<Season>, name: string)
    ensures DistinctSeasonNames(PerSeason(rooms, seasons))
    ensures FindSeason(PerSeason(rooms, seasons), name)
              == match LastSeasonNamed(seasons, name)
                 case None => None
                 case Some(s) => Some(SeasonLine(rooms, s))
  {
    if seasons != [] {
      var init := seasons[..|seasons| - 1];
      PerSeasonKeepsLastSeason(rooms, init, name);
      PerSeasonKeepsLastSeason(rooms, init, seasons[|seasons| - 1].name);
      PutFind(PerSeason(rooms, init), SeasonLine(rooms, seasons[|seasons| - 1]), name);
    }
  }

  /** With distinct season names, the per-season dictionary holds every season's entry, in list order. */
  lemma {:induction false} PerSeasonInOrder(rooms: seq<RoomType>, seasons: seq<Season>)
    requires DistinctSeasons(seasons)
    ensures |PerSeason(rooms, seasons)| == |seasons|
    ensures forall i :: 0 <= i < |seasons| ==> PerSeason(rooms, seasons)[i] == SeasonLine(rooms, seasons[i])
  {
    if seasons != [] {
      var n := |seasons| - 1;
      var init := seasons[..n];
      var last := seasons[n];
      assert DistinctSeasons(init) by {
        forall i, j | 0 <= i < j < |init|
          ensures init[i].name != init[j].name
        {
          assert init[i] == seasons[i] && init[j] == seasons[j];
        }
      }
      PerSeasonInOrder(rooms, init);
      var prev := PerSeason(rooms, init);
      var line := SeasonLine(rooms, last);
      forall k | 0 <= k < |prev|
        ensures prev[k].name != line.name
      {
        assert prev[k] == SeasonLine(rooms, init[k]);
        assert init[k] == seasons[k];
      }
      assert DistinctSeasonNames(prev) by {
        forall i, j | 0 <= i < j < |prev|
          ensures prev[i].name != prev[j].name
        {
          assert prev[i] == SeasonLine(rooms, init[i]) && prev[j] == SeasonLine(rooms, init[j]);
        }
      }
      PutFind(prev, line, line.name);
      assert PerSeason(rooms, seasons) == prev + [line];
      forall i | 0 <= i < |seasons|
        ensures PerSeason(rooms, seasons)[i] == SeasonLine(rooms, seasons[i])
      {
        if i < n {
          assert seasons[i] == init[i];
        }
      }
    }
  }

  /** The annual total counts every season of the list, repeated names included. */
  lemma {:induction false} TotalRevenueOfConcat(rooms: seq<RoomType>, a: seq<Season>, b: seq<Season>)
    ensures TotalRevenue(rooms, a + b) == TotalRevenue(rooms, a) + TotalRevenue(rooms, b)
  {
    if b != [] {
      assert (a + b)[..|a + b| - 1] == a + b[..|b| - 1];
      TotalRevenueOfConcat(rooms, a, b[..|b| - 1]);
    } else {
      assert a + b == a;
    }
  }

  /**
   * Two seasons with the same name: the per-season dictionary keeps a single
   * entry, that of the second season, while the total counts both.
   */
  lemma DuplicateSeasonName(rooms: seq<RoomType>, s1: Season, s2: Season)
    requires s1.name == s2.name
    ensures PerSeason(rooms, [s1, s2]) == [SeasonLine(rooms, s2)]
    ensures TotalRevenue(rooms, [s1, s2]) == SeasonLine(rooms, s1).revenue + SeasonLine(rooms, s2).revenue
  {
    assert [s1, s2][..1] == [s1];
    assert [s1][..0] == [];
    var l1, l2 := SeasonLine(rooms, s1), SeasonLine(rooms, s2);
    assert PerSeason(rooms, [s1]) == [l1];
    assert TotalRevenue(rooms, [s1]) == l1.revenue;
    assert TotalRevenue(rooms, [s1, s2]) == TotalRevenue(rooms, [s1]) + l2.revenue;
    assert IndexOfName([l1], l2.name) == 0;
  }
}
