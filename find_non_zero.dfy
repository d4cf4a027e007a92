/**
 * FindNonZero.cs: the registry of per-channel-type extraction routines, the
 * strided row-by-row extractor, and the region-by-region merge into the two
 * shared output lists. The parallel fan-out over regions is modelled as a
 * sequential loop over a given list of regions, one region's batch at a time.
 */
module FindNonZeroExtensions {
  import opened Wrappers
  import opened NonZeroSpec

  /** The channel (depth) types an image may declare. */
  datatype ChannelType = Byte | SByte | Short | UShort | Int | Float | Double

  /** The extraction routines that exist; only the one for `float` is written. */
  datatype Extractor = FloatExtractor

  datatype ScanError = NotSupported(channelType: ChannelType)

  /** Found locations and the values at them, as two parallel lists. */
  datatype Output = Output(locations: seq<Point>, values: seq<int>)

  /** The channel-type dictionary, filled once by the static constructor and only read afterwards. */
  class Registry {
    var funcs: map<ChannelType, Extractor>

    ghost predicate Valid()
      reads this
    {
      funcs == map[Float := FloatExtractor]
    }

    constructor ()
      ensures Valid()
    {
      funcs := map[];
      new;
      funcs := funcs[Float := FloatExtractor];
    }

    /** TryGetValue, with a miss reported as the not-supported error naming the type. */
    function Lookup(t: ChannelType): (r: Result<Extractor, ScanError>)
      reads this
      ensures r.Success? <==> t in funcs
      ensures r.Success? ==> r.value == funcs[t]
      ensures r.Failure? ==> r.error == NotSupported(t)
    {
      if t in funcs then Success(funcs[t]) else Failure(NotSupported(t))
    }
  }

  /** Only `float` images can be scanned; any other channel type is refused with its name. */
  lemma LookupOnlyFloat(reg: Registry, t: ChannelType)
    requires reg.Valid()
    ensures reg.Lookup(t).Success? <==> t == Float
    ensures reg.Lookup(t).Success? ==> reg.Lookup(t).value == FloatExtractor
    ensures reg.Lookup(t).Failure? ==> reg.Lookup(t).error == NotSupported(t)
  {
  }

  lemma ProjectionsConcat(a: seq<Sample>, b: seq<Sample>)
    ensures Locations(a + b) == Locations(a) + Locations(b)
    ensures Values(a + b) == Values(a) + Values(b)
  {
  }

  /** One more column of a row adds its location and value exactly when the element is non-zero. */
  lemma ScanColsStep(s: seq<int>, g: Layout, row: nat, col: nat)
    requires Fits(g, |s|) && row < g.height && col < g.width
    ensures Locations(ScanCols(s, g, row, col + 1))
         == Locations(ScanCols(s, g, row, col)) + (if s[Addr(g, row, col)] != 0 then [Point(col, row)] else [])
    ensures Values(ScanCols(s, g, row, col + 1))
         == Values(ScanCols(s, g, row, col)) + (if s[Addr(g, row, col)] != 0 then [s[Addr(g, row, col)]] else [])
  {
    var v := s[Addr(g, row, col)];
    ProjectionsConcat(ScanCols(s, g, row, col), if v != 0 then [Sample(Point(col, row), v)] else []);
  }

  /**
   * findNonZero_Float: walks the view row by row, a row pointer advancing by
   * the stride, and for every non-zero element appends its (col, row) to one
   * list and its value to the other.
   */
  method FindNonZeroFloat(buf: array<int>, g: Layout) returns (locations: seq<Point>, values: seq<int>)
    requires Fits(g, buf.Length)
    ensures locations == Locations(NonZeroSamples(buf[..], g))
    ensures values == Values(NonZeroSamples(buf[..], g))
  {
    ghost var s := buf[..];
    locations, values := [], [];
    var ptr := g.base;
    var row := 0;
    while row < g.height
      invariant 0 <= row <= g.height
      invariant ptr == g.base + row * g.stride
      invariant locations == Locations(ScanRows(s, g, row))
      invariant values == Values(ScanRows(s, g, row))
    {
      ghost var before := ScanRows(s, g, row);
      var col := 0;
      while col < g.width
        invariant 0 <= col <= g.width
        invariant locations == Locations(before) + Locations(ScanCols(s, g, row, col))
        invariant values == Values(before) + Values(ScanCols(s, g, row, col))
      {
        assert ptr + col == Addr(g, row, col);
        var val := buf[ptr + col];
        ScanColsStep(s, g, row, col);
        if val != 0 {
          locations := locations + [Point(col, row)];
          values := values + [val];
        }
        col := col + 1;
      }
      ProjectionsConcat(before, ScanCols(s, g, row, g.width));
      assert (row + 1) * g.stride == row * g.stride + g.stride;
      ptr := ptr + g.stride;
      row := row + 1;
    }
  }

  /** Each location moved by `origin`, order kept. */
  function TranslateAll(ps: seq<Point>, origin: Point): seq<Point> {
    seq(|ps|, i requires 0 <= i < |ps| => Translate(ps[i], origin))
  }

  lemma ShiftProjections(ss: seq<Sample>, origin: Point)
    ensures Locations(Shift(ss, origin)) == TranslateAll(Locations(ss), origin)
    ensures Values(Shift(ss, origin)) == Values(ss)
  {
  }

  /**
   * The two result lists, always updated together while both locks are held
   * (the lock on the location list, then the one on the value list): a region's
   * batch is appended whole, so no other region's batch interleaves with it.
   */
  class SharedOutput {
    var locations: seq<Point>
    var values: seq<int>

    constructor ()
      ensures locations == [] && values == []
    {
      locations, values := [], [];
    }

    /** Appends one region's locations, each translated by the region's corner, then its values. */
    method AppendPatch(patchLocations: seq<Point>, patchValues: seq<int>, area: Rect)
      modifies this
      ensures locations == old(locations) + TranslateAll(patchLocations, area.Location())
      ensures values == old(values) + patchValues
    {
      var i := 0;
      while i < |patchLocations|
        invariant 0 <= i <= |patchLocations|
        invariant locations == old(locations) + TranslateAll(patchLocations[..i], area.Location())
        invariant values == old(values)
      {
        locations := locations + [Translate(patchLocations[i], area.Location())];
        i := i + 1;
      }
      assert patchLocations[..i] == patchLocations;
      values := values + patchValues;
    }
  }

  /**
   * FindNonZero<TDepth>: refuses an unregistered channel type before touching
   * any region; otherwise scans every region's view with the registered routine
   * and appends each region's results, in image coordinates, to the shared lists.
   */
  method FindNonZero(reg: Registry, channel: ChannelType, buf: array<int>, g: Layout, regions: seq<Rect>)
    returns (r: Result<Output, ScanError>)
    requires reg.Valid() && Fits(g, buf.Length) && AllInside(regions, g)
    ensures r.Failure? <==> channel != Float
    ensures r.Failure? ==> r.error == NotSupported(channel)
    ensures r.Success? ==> |r.value.locations| == |r.value.values|
    ensures r.Success? ==> forall i :: 0 <= i < |r.value.locations| ==>
              IsNonZeroSample(buf[..], g, Sample(r.value.locations[i], r.value.values[i]))
    ensures r.Success? ==> r.value.locations == Locations(Merged(buf[..], g, regions))
    ensures r.Success? ==> r.value.values == Values(Merged(buf[..], g, regions))
  {
    var found := reg.Lookup(channel);
    if found.Failure? {
      return Failure(NotSupported(channel));
    }
    ghost var s := buf[..];
    var output := new SharedOutput();
    var k := 0;
    while k < |regions|
      invariant 0 <= k <= |regions|
      invariant output.locations == Locations(Merged(s, g, regions[..k]))
      invariant output.values == Values(Merged(s, g, regions[..k]))
    {
      var area := regions[k];
      SubViewFits(g, buf.Length, area);
      var patchLocations, patchValues;
      match found.value {
        case FloatExtractor =>
          patchLocations, patchValues := FindNonZeroFloat(buf, SubView(g, area));
      }
      output.AppendPatch(patchLocations, patchValues, area);
      assert regions[..k + 1][..k] == regions[..k];
      ProjectionsConcat(Merged(s, g, regions[..k]), RegionSamples(s, g, area));
      ShiftProjections(NonZeroSamples(s, SubView(g, area)), area.Location());
      k := k + 1;
    }
    assert regions[..k] == regions;
    MergedMembers(s, g, regions);
    ghost var merged := Merged(s, g, regions);
    assert forall i :: 0 <= i < |merged| ==> merged[i] in merged;
    r := Success(Output(output.locations, output.values));
  }

  /** The overload that returns the locations only. */
  method FindNonZeroLocations(reg: Registry, channel: ChannelType, buf: array<int>, g: Layout, regions: seq<Rect>)
    returns (r: Result<seq<Point>, ScanError>)
    requires reg.Valid() && Fits(g, buf.Length) && AllInside(regions, g)
    ensures r.Failure? <==> channel != Float
    ensures r.Failure? ==> r.error == NotSupported(channel)
    ensures r.Success? ==> r.value == Locations(Merged(buf[..], g, regions))
  {
    var both := FindNonZero(reg, channel, buf, g, regions);
    match both {
      case Failure(e) => r := Failure(e);
      case Success(output) => r := Success(output.locations);
    }
  }
}
