/** The stand-alone region selector: the label `Alle Regionen` together with each region of the
    records once, all sorted in the default string order, so the label is not necessarily first. */
module RegionFilter {
  import opened Text
  import opened Sequences
  import opened Bookings
  import opened DashboardLayout

  const AllRegions: string := "Alle Regionen"

  /** `['Alle Regionen', ...Array.from(new Set(regions))].sort()`. */
  function RegionOptions(data: seq<Booking>): seq<string>
  {
    SortStrings([AllRegions] + SetOf(Map(data, Region)))
  }

  /** A region occurs in the records exactly when some record carries it. */
  lemma RegionsOfRecords(data: seq<Booking>, x: string)
    ensures x in Map(data, Region) <==> exists b :: b in data && b.region == x
  {
    if x in Map(data, Region) {
      var i :| 0 <= i < |data| && Map(data, Region)[i] == x;
      assert data[i] in data;
    }
    if b :| b in data && b.region == x {
      var i :| 0 <= i < |data| && data[i] == b;
      assert Map(data, Region)[i] == x;
    }
  }

  /** The options are sorted and are the label and the regions of the records; when no record's
      region is the label itself, each option occurs once and there is one more option than
      there are distinct regions. */
  lemma RegionOptionsShape(data: seq<Booking>)
    ensures var r := RegionOptions(data);
      && Sorted(r)
      && (forall x :: x in r <==> x == AllRegions || exists b :: b in data && b.region == x)
      && ((forall b :: b in data ==> b.region != AllRegions) ==>
            Distinct(r) && |r| == |SetOf(Map(data, Region))| + 1)
  {
    var regions := SetOf(Map(data, Region));
    var all := [AllRegions] + regions;
    var r := RegionOptions(data);
    SetOfMembers(Map(data, Region));
    SortStringsSorted(all);
    forall x ensures x in r <==> x == AllRegions || exists b :: b in data && b.region == x {
      RegionsOfRecords(data, x);
      assert x in r <==> x in multiset(all);
      assert x in all <==> x == AllRegions || x in regions;
    }
    if forall b :: b in data ==> b.region != AllRegions {
      RegionsOfRecords(data, AllRegions);
      forall i, j | 0 <= i < j < |all| ensures all[i] != all[j] {
        if i == 0 {
          assert all[j] == regions[j - 1];
        } else {
          assert all[i] == regions[i - 1] && all[j] == regions[j - 1];
        }
      }
      PermutationDistinct(all, r);
    }
  }

  /** A region that sorts before the label (`Aachen`, say) puts the label
      out of first place. */
  lemma LabelNotPinned(data: seq<Booking>, b: Booking)
    requires b in data && b.region != AllRegions && StrLe(b.region, AllRegions)
    ensures RegionOptions(data)[0] != AllRegions
  {
    var r := RegionOptions(data);
    RegionOptionsShape(data);
    assert b.region in r;
    var j :| 0 <= j < |r| && r[j] == b.region;
    if r[0] == AllRegions {
      assert j > 0;
      StrLeAntisymmetric(b.region, AllRegions);
    }
  }
}
