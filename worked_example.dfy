/**
 * The example data of the command-line script (its "Haute saison hiver"
 * season with its four room types) and two small IRR cases, evaluated on the
 * model.
 */
module WorkedExample {
  import opened Numeric
  import opened Pricing
  import opened Revenue
  import opened Irr

  const PremiumWinter: SeasonPricing := SeasonPricing(150.0, 950.0, 3200.0, 0.6, 0.3, 0.1)
  const SimpleWinter: SeasonPricing := SeasonPricing(110.0, 700.0, 2400.0, 0.7, 0.2, 0.1)
  const DortoirWinter: SeasonPricing := SeasonPricing(38.0, 230.0, 0.0, 0.9, 0.1, 0.0)
  const StudioWinter: SeasonPricing := SeasonPricing(170.0, 1100.0, 3800.0, 0.4, 0.4, 0.2)

  /** The command-line script's room inventory. */
  const ScriptRooms: seq<RoomType> :=
    [RoomType("chambre_premium", 6), RoomType("chambre_simple", 5), RoomType("dortoir", 2), RoomType("studio", 2)]

  /** The command-line script's 90-day high winter season. */
  function HighWinter(): Season {
    Season("Haute saison hiver", 90,
           map["chambre_premium" := 0.85, "chambre_simple" := 0.80, "dortoir" := 0.90, "studio" := 0.85],
           map["chambre_premium" := PremiumWinter, "chambre_simple" := SimpleWinter,
               "dortoir" := DortoirWinter, "studio" := StudioWinter])
  }

  /** Dormitory beds in high winter: 0.9 x 38 + 0.1 x 230 / 7, about 37.49 a night. */
  lemma DortoirWinterRate()
    ensures EquivalentNightlyRate(DortoirWinter) == 34.2 + 23.0 / 7.0
    ensures 37.48 < EquivalentNightlyRate(DortoirWinter) < 37.49
  {
    assert DortoirWinter.TotalShare() == 1.0;
  }

  /** Premium rooms in high winter: 0.6 x 150 + 0.3 x 950 / 7 + 0.1 x 3200 / 30. */
  lemma PremiumWinterRate()
    ensures EquivalentNightlyRate(PremiumWinter) == 90.0 + 285.0 / 7.0 + 32.0 / 3.0
  {
    assert PremiumWinter.TotalShare() == 1.0;
  }

  /** Six premium rooms over a 90-day season at 85% occupancy fill 459 room-nights. */
  lemma PremiumWinterNights()
    ensures RoomLine(RoomType("chambre_premium", 6), HighWinter()).totalRoomNights == 540
    ensures RoomLine(RoomType("chambre_premium", 6), HighWinter()).occupiedNights == 459.0
    ensures RoomLine(RoomType("chambre_premium", 6), HighWinter()).revenue
              == 459.0 * (90.0 + 285.0 / 7.0 + 32.0 / 3.0)
  {
    PremiumWinterRate();
    assert OccupancyOf(HighWinter(), "chambre_premium") == 0.85;
  }

  /**
   * Every room type of the script is priced in high winter, so each has a
   * breakdown entry. A room type added to the inventory without a price
   * (an invented "suite") gets none.
   */
  lemma UnpricedRoomTypeIsSkipped()
    ensures |Breakdown(ScriptRooms, HighWinter())| == 4
    ensures Breakdown(ScriptRooms + [RoomType("suite", 1)], HighWinter()) == Breakdown(ScriptRooms, HighWinter())
  {
    var rooms := ScriptRooms + [RoomType("suite", 1)];
    var priced := HighWinter().pricing;
    assert "suite" !in priced;
    assert "chambre_premium" in priced && "chambre_simple" in priced && "dortoir" in priced && "studio" in priced;
    assert rooms[..|rooms| - 1] == ScriptRooms;
    assert ScriptRooms[..3][..2][..1][..0] == [];
    assert ScriptRooms[..3][..2][..1] == [RoomType("chambre_premium", 6)];
    assert ScriptRooms[..3][..2] == [RoomType("chambre_premium", 6), RoomType("chambre_simple", 5)];
    assert ScriptRooms[..3] == [RoomType("chambre_premium", 6), RoomType("chambre_simple", 5), RoomType("dortoir", 2)];
    var hw := HighWinter();
    assert |Breakdown(ScriptRooms[..3][..2][..1], hw)| == 1;
    assert |Breakdown(ScriptRooms[..3][..2], hw)| == 2;
    assert |Breakdown(ScriptRooms[..3], hw)| == 3;
  }

  /** Flows that are all non-negative have no rate of return. */
  lemma NoOutlayNoIrr()
    ensures IrrOf([100.0, 60.0, 60.0], 0.000001, 1000) == None
  {
  }

  /**
   * Paying 100 for 60 a year over two years: the NPV is positive at 13% and
   * negative at 14%, so the rate of return lies between them (about 13.06%).
   */
  lemma TwoYearIrrBracket()
    ensures !NoSignChange([-100.0, 60.0, 60.0])
    ensures Npv([-100.0, 60.0, 60.0], 0.13) > 0.0
    ensures Npv([-100.0, 60.0, 60.0], 0.14) < 0.0
  {
    var cfs := [-100.0, 60.0, 60.0];
    assert cfs[0] < 0.0 && cfs[1] > 0.0;
    NpvOfThree(0.13, 1.2769);
    NpvOfThree(0.14, 1.2996);
  }

  /** The flows -100, 60, 60 discounted at `rate`, where `sq` is (1 + rate)^2. */
  lemma NpvOfThree(rate: real, sq: real)
    requires rate > -1.0 && sq > 0.0 && sq == (1.0 + rate) * (1.0 + rate)
    ensures Npv([-100.0, 60.0, 60.0], rate) == -100.0 + 60.0 / (1.0 + rate) + 60.0 / sq
  {
    var cfs := [-100.0, 60.0, 60.0];
    assert cfs[..2] == [-100.0, 60.0] && cfs[..2][..1] == [-100.0] && cfs[..2][..1][..0] == [];
    assert Pow(1.0 + rate, 0) == 1.0;
    assert Pow(1.0 + rate, 1) == 1.0 + rate;
    assert Pow(1.0 + rate, 2) == sq;
    assert Npv([-100.0], rate) == -100.0;
    assert Npv([-100.0, 60.0], rate) == -100.0 + 60.0 / (1.0 + rate);
  }
}
