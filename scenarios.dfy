/** Concrete runs of the display layer against a one-display OS: one active
    path whose source mode is the only mode record, a DPI reply with the
    given offsets, and set calls that succeed. */
module Scenarios {
  import opened Machine
  import opened Outcomes
  import opened Catalog
  import opened Text
  import opened Os
  import opened Display
  import opened Apply

  const ADAPTER: Luid := Luid(7, 0)
  const SOURCE_ID: uint32 := 12345
  const PATH: PathInfo := PathInfo(ADAPTER, SOURCE_ID, 0, ADAPTER, 3)
  /** "DELL" in UTF-16. */
  const NAME_UNITS_DELL: seq<uint16> := [68, 69, 76, 76]

  function Mode(width: uint32, height: uint32): ModeInfo {
    Source(ADAPTER, SOURCE_ID, width, height, 21, 0, 0)
  }

  /** An OS with one display of the given size whose DPI query reports the
      given minimum and current offsets, whatever was committed before. */
  function MockOs(width: uint32, height: uint32, minRel: int32, curRel: int32): Os {
    Os(
      _ => SizesReply(0, 1, 1),
      _ => QueryReply(0, [PATH], [Mode(width, height)]),
      (_, _, _) => NameReply(0, NAME_UNITS_DELL),
      (_, _, _) => DpiReply(0, minRel, curRel, 5),
      (_, _, _, _) => 0,
      (_, _, _, _) => 0)
  }

  lemma MockTopology(width: uint32, height: uint32, minRel: int32, curRel: int32, h: History)
    ensures QueriedTopology(MockOs(width, height, minRel, curRel), h) == Ok(Topology([PATH], [Mode(width, height)]))
  {
    assert Filled(1, [PATH], DEFAULT_PATH) == [PATH];
    assert Filled(1, [Mode(width, height)], DEFAULT_MODE) == [Mode(width, height)];
  }

  /** The name field: four units and sixty zero units decode to "DELL". */
  lemma MockName()
    ensures FriendlyName(Filled(NAME_UNITS, NAME_UNITS_DELL, 0)) == "DELL"
  {
    var buffer := Filled(NAME_UNITS, NAME_UNITS_DELL, 0);
    assert buffer == NAME_UNITS_DELL + buffer[4..];
    TrimTrailingKeepsText(NAME_UNITS_DELL, buffer[4..], 0);
    var u := NAME_UNITS_DELL;
    assert u[1..][1..][1..][1..] == [];
    assert DecodeUtf16Lossy(u[1..][1..][1..]) == "L";
    assert DecodeUtf16Lossy(u[1..][1..]) == "LL";
    assert DecodeUtf16Lossy(u[1..]) == "ELL";
    assert DecodeUtf16Lossy(u) == "DELL";
  }

  /** Listing: one path at 2560x1440 whose offsets (min -2, current -1)
      resolve to 125% current and 150% recommended gives exactly that one
      snapshot. */
  lemma ListScenario(h: History)
    ensures Enumeration(MockOs(2560, 1440, -2, -1), h) == Ok([DisplayInfo("DELL", SOURCE_ID, 2560, 1440, 125, 150)])
  {
    var os := MockOs(2560, 1440, -2, -1);
    MockTopology(2560, 1440, -2, -1, h);
    MockName();
    ScalingFromOffsetsCases(-2, -1);
    var d := DisplayInfo("DELL", SOURCE_ID, 2560, 1440, 125, 150);
    assert os.targetName(h, PATH.targetAdapter, PATH.targetId) == NameReply(0, NAME_UNITS_DELL);
    assert DisplayName(os, h, PATH) == Ok("DELL");
    assert os.dpiScale(h, PATH.sourceAdapter, PATH.sourceId) == DpiReply(0, -2, -1, 5);
    assert DisplayScaling(os, h, PATH) == Ok((125, 150));
    assert PathEntry(os, h, [Mode(2560, 1440)], PATH) == Show(d);
    var es := Entries(os, h, Topology([PATH], [Mode(2560, 1440)]));
    assert es == [Show(d)];
    assert FirstAbort(es) == None;
    assert es[..0] == [];
    assert Shown(es) == [d];
  }

  /** The scaling reading of the mock path: min -2 puts the recommended
      150% at index 2, and current -2 the current scaling at index 0. */
  lemma MockScaling(width: uint32, height: uint32, h: History)
    ensures DisplayScaling(MockOs(width, height, -2, -2), h, PATH) == Ok((100, 150))
  {
    ScalingFromOffsetsCases(-2, -2);
    assert MockOs(width, height, -2, -2).dpiScale(h, PATH.sourceAdapter, PATH.sourceId) == DpiReply(0, -2, -2, 5);
  }

  /** Resolution only: 1920x1080 at 100% asked for 3840x2160 at 100% makes
      one topology commit, carrying the one mode record with the new size,
      and no DPI call. */
  lemma ResolutionOnlyScenario(h: History)
    ensures ConfigUpdate(MockOs(1920, 1080, -2, -2), h,
                         DisplayInfo("DELL", SOURCE_ID, 1920, 1080, 100, 150), DisplayConfig(3840, 2160, 100))
      == Run(Ok(()), [SetConfig([PATH], [Mode(3840, 2160)], SET_CONFIG_FLAGS)])
  {
    MockTopology(1920, 1080, -2, -2, h);
    assert [Mode(1920, 1080)][0 := Mode(3840, 2160)] == [Mode(3840, 2160)];
  }

  /** The scaling update of the scaling-only run on its own. */
  lemma MockScalingUpdate(h: History)
    ensures ScalingUpdate(MockOs(2560, 1440, -2, -2), h,
                          DisplayInfo("DELL", SOURCE_ID, 2560, 1440, 100, 150), DisplayConfig(2560, 1440, 175))
      == Run(Ok(()), [SetDpi(ADAPTER, SOURCE_ID, 1)])
  {
    MockTopology(2560, 1440, -2, -2, h);
    MockScaling(2560, 1440, h);
    RelativeOffsetExample();
    assert FindBySource([PATH], SOURCE_ID) == Some(0);
  }

  /** Scaling only: at 100% with 150% recommended, asking for 175% sets the
      offset 3 - 2 = 1 for the display's source, and commits no topology. */
  lemma ScalingOnlyScenario(h: History)
    ensures ConfigUpdate(MockOs(2560, 1440, -2, -2), h,
                         DisplayInfo("DELL", SOURCE_ID, 2560, 1440, 100, 150), DisplayConfig(2560, 1440, 175))
      == Run(Ok(()), [SetDpi(ADAPTER, SOURCE_ID, 1)])
  {
    ConfigUpdateSequencing(MockOs(2560, 1440, -2, -2), h,
                           DisplayInfo("DELL", SOURCE_ID, 2560, 1440, 100, 150), DisplayConfig(2560, 1440, 175));
    MockScalingUpdate(h);
    assert h + [] == h;
  }

  /** An unsupported target: 120% is not in the catalog, so the update
      panics in `unwrap` before any set call. */
  lemma UnsupportedScalingScenario(h: History)
    ensures ConfigUpdate(MockOs(2560, 1440, -2, -2), h,
                         DisplayInfo("DELL", SOURCE_ID, 2560, 1440, 100, 150), DisplayConfig(2560, 1440, 120))
      == Run(Fail(Panic(TargetNotInCatalog)), [])
  {
    MockTopology(2560, 1440, -2, -2, h);
    MockScaling(2560, 1440, h);
    RelativeOffsetExample();
    assert h + [] == h;
  }

  /** A vanished display: a source id the fresh query does not report
      panics in the path lookup, with no commit, for either update. */
  lemma VanishedDisplayScenario(h: History)
    ensures ConfigUpdate(MockOs(2560, 1440, -2, -2), h,
                         DisplayInfo("DELL", 999, 2560, 1440, 100, 150), DisplayConfig(1920, 1080, 100))
      == Run(Fail(Panic(PathNotFound)), [])
    ensures ConfigUpdate(MockOs(2560, 1440, -2, -2), h,
                         DisplayInfo("DELL", 999, 2560, 1440, 100, 150), DisplayConfig(2560, 1440, 175))
      == Run(Fail(Panic(PathNotFound)), [])
  {
    MockTopology(2560, 1440, -2, -2, h);
    assert h + [] == h;
  }

  /** The buffers keep their sized lengths: when the OS sizes two paths but
      reports only one, the second buffer entry stays a zeroed path record,
      whose source-mode index 0 names the source mode of the first path, so
      the enumeration loop treats it as a display (and looks up its name). */
  lemma ShortQueryKeepsBlankPath(h: History)
    ensures var os := MockOs(2560, 1440, -2, -2).(bufferSizes := _ => SizesReply(0, 2, 1));
      && QueriedTopology(os, h) == Ok(Topology([PATH, DEFAULT_PATH], [Mode(2560, 1440)]))
      && Included(DEFAULT_PATH, [Mode(2560, 1440)])
  {
    assert Filled(2, [PATH], DEFAULT_PATH) == [PATH, DEFAULT_PATH];
    assert Filled(1, [Mode(2560, 1440)], DEFAULT_MODE) == [Mode(2560, 1440)];
  }
}
