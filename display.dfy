/** The topology reader of display.rs: the display snapshot, its rendering,
    the per-path name and scaling lookups, and `enumerate_displays`. */
module Display {
  import opened Machine
  import opened Outcomes
  import opened Catalog
  import opened Text
  import opened Os

  /** A snapshot of one active display. */
  datatype DisplayInfo = DisplayInfo(
    friendlyName: string,
    sourceId: uint32,
    width: uint32,
    height: uint32,
    scalingCurrent: int32,
    scalingRecommended: int32)

  /** A requested configuration for one display. */
  datatype DisplayConfig = DisplayConfig(width: uint32, height: uint32, scaling: int32)

  /* ---------------- rendering ---------------- */

  const EM_DASH: char := '\U{2014}'

  /** What follows the source id in the first `write!` (display.rs:23-24):
      `] <name> — <w>x<h> @ <cur>%`. */
  function AfterId(d: DisplayInfo): string {
    "] " + d.friendlyName + " " + [EM_DASH] + " "
      + NatToDecimal(d.width) + "x" + NatToDecimal(d.height)
      + " @ " + IntToDecimal(d.scalingCurrent) + "%"
  }

  /** ` (rec <rec>%)` (display.rs:27). */
  function RecommendedSuffix(d: DisplayInfo): string {
    " (rec " + IntToDecimal(d.scalingRecommended) + "%)"
  }

  /** `impl fmt::Display for DisplayInfo` (display.rs:18-31):
      `[id:<source>] <name> — <w>x<h> @ <cur>%`, then the recommended
      scaling only when it differs from the current one. */
  function Render(d: DisplayInfo): string {
    var head := "[id:" + NatToDecimal(d.sourceId) + AfterId(d);
    if d.scalingRecommended != d.scalingCurrent then head + RecommendedSuffix(d) else head
  }

  /** The rendering closes with `%)` exactly when the recommended scaling
      differs from the current one, and with a bare `%` otherwise. */
  lemma RenderSuffixIff(d: DisplayInfo)
    ensures var s := Render(d);
      && |s| >= 2
      && (d.scalingRecommended != d.scalingCurrent <==> s[|s| - 2..] == "%)")
      && (d.scalingRecommended == d.scalingCurrent <==> s[|s| - 1] == '%')
  {
    var head := "[id:" + NatToDecimal(d.sourceId) + AfterId(d);
    var rest := AfterId(d);
    assert head[|head| - 1] == rest[|rest| - 1] == '%';
    if d.scalingRecommended != d.scalingCurrent {
      var suffix := RecommendedSuffix(d);
      assert (head + suffix)[|head + suffix| - 2..] == suffix[|suffix| - 2..];
    }
  }

  /** The source id can be read back from the rendering: after `[id:` come
      its decimal digits, then `]`. */
  lemma RenderIdReadBack(d: DisplayInfo)
    ensures var s := Render(d); var n := |NatToDecimal(d.sourceId)|;
      && |s| > 4 + n
      && s[..4] == "[id:"
      && (forall k :: 4 <= k < 4 + n ==> IsDigit(s[k]))
      && DecimalValue(s[4..4 + n]) == d.sourceId
      && s[4 + n] == ']'
  {
    var digits := NatToDecimal(d.sourceId);
    var head := "[id:" + digits + AfterId(d);
    var s := Render(d);
    assert s[..|head|] == head;
    assert head[4..4 + |digits|] == digits;
    assert s[4..4 + |digits|] == digits;
    DecimalRoundTrip(d.sourceId);
  }

  lemma DecimalExamples()
    ensures NatToDecimal(12345) == "12345"
    ensures NatToDecimal(2560) == "2560" && NatToDecimal(1440) == "1440"
    ensures IntToDecimal(125) == "125" && IntToDecimal(150) == "150"
  {
    assert NatToDecimal(1234) == "1234" by {
      assert NatToDecimal(12) == "12";
      assert NatToDecimal(123) == "123";
    }
    assert NatToDecimal(256) == "256" by {
      assert NatToDecimal(25) == "25";
    }
    assert NatToDecimal(144) == "144" by {
      assert NatToDecimal(14) == "14";
    }
    assert NatToDecimal(12) == "12";
    assert NatToDecimal(15) == "15";
  }

  /* The five Join lemmas below only join string literals, as steps of
     RenderExample; they say nothing about the model. */

  lemma JoinAfterId125()
    ensures "] " + "My Monitor" + " " + [EM_DASH] + " " + "2560" + "x" + "1440" + " @ " + "125" + "%"
      == "] My Monitor \U{2014} 2560x1440 @ 125%"
  {
  }

  lemma JoinAfterId150()
    ensures "] " + "My Monitor" + " " + [EM_DASH] + " " + "2560" + "x" + "1440" + " @ " + "150" + "%"
      == "] My Monitor \U{2014} 2560x1440 @ 150%"
  {
  }

  lemma JoinHead125()
    ensures "[id:" + "12345" + "] My Monitor \U{2014} 2560x1440 @ 125%"
      == "[id:12345] My Monitor \U{2014} 2560x1440 @ 125%"
  {
  }

  lemma JoinRender125()
    ensures "[id:12345] My Monitor \U{2014} 2560x1440 @ 125%" + (" (rec " + "150" + "%)")
      == "[id:12345] My Monitor \U{2014} 2560x1440 @ 125% (rec 150%)"
  {
    assert " (rec " + "150" + "%)" == " (rec 150%)";
  }

  lemma JoinRender150()
    ensures "[id:" + "12345" + "] My Monitor \U{2014} 2560x1440 @ 150%"
      == "[id:12345] My Monitor \U{2014} 2560x1440 @ 150%"
  {
  }

  /** The example in the source's comment (display.rs:20): current 125%,
      recommended 150%; and the same display at its recommended scaling. */
  lemma RenderExample()
    ensures Render(DisplayInfo("My Monitor", 12345, 2560, 1440, 125, 150))
      == "[id:12345] My Monitor \U{2014} 2560x1440 @ 125% (rec 150%)"
    ensures Render(DisplayInfo("My Monitor", 12345, 2560, 1440, 150, 150))
      == "[id:12345] My Monitor \U{2014} 2560x1440 @ 150%"
  {
    DecimalExamples();
    JoinAfterId125();
    JoinAfterId150();
    JoinHead125();
    JoinRender125();
    JoinRender150();
  }

  /* ---------------- per-path lookups ---------------- */

  /** The friendly-name field is a zeroed 64-unit buffer the OS writes into. */
  const NAME_UNITS: nat := 64

  /** `get_display_name_from_path` (display.rs:161-191): query the target's
      name; a failing query is an error, otherwise the decoded buffer without
      its NUL padding. */
  function DisplayName(os: Os, h: History, p: PathInfo): Outcome<string> {
    var reply := os.targetName(h, p.targetAdapter, p.targetId);
    if reply.nameStatus == 0 then Ok(FriendlyName(Filled(NAME_UNITS, reply.nameUnits, 0)))
    else Fail(Err(NameQueryFailed(reply.nameStatus)))
  }

  /** The name lookup fails exactly when the OS reports a non-zero status,
      with that status; otherwise the name is the decoding of the buffer's
      units up to its NUL padding, and never ends in NUL. */
  lemma DisplayNameResult(os: Os, h: History, p: PathInfo)
    ensures var r := DisplayName(os, h, p); var reply := os.targetName(h, p.targetAdapter, p.targetId);
      && (r.Fail? <==> reply.nameStatus != 0)
      && (r.Fail? ==> r.why == Err(NameQueryFailed(reply.nameStatus)))
      && (r.Ok? ==> r.value == DecodeUtf16Lossy(TrimTrailing(Filled(NAME_UNITS, reply.nameUnits, 0), 0)))
      && (r.Ok? ==> r.value == [] || r.value[|r.value| - 1] != '\0')
  {
  }

  /** `get_display_scaling_from_path` (display.rs:193-223): query the
      source's DPI offsets and turn them into (current, recommended)
      percentages. */
  function DisplayScaling(os: Os, h: History, p: PathInfo): Outcome<(int32, int32)> {
    var reply := os.dpiScale(h, p.sourceAdapter, p.sourceId);
    if reply.dpiStatus != 0 then Fail(Err(DpiQueryFailed(reply.dpiStatus)))
    else ScalingFromOffsets(reply.minRel, reply.curRel)
  }

  /** All outcomes of the scaling lookup in terms of the OS's reply: a
      failing query, an out-of-catalog current index, an out-of-catalog
      recommended index (a panic), or the catalog entries at |min| + cur and
      |min|. */
  lemma DisplayScalingCases(os: Os, h: History, p: PathInfo)
    ensures var r := DisplayScaling(os, h, p); var reply := os.dpiScale(h, p.sourceAdapter, p.sourceId);
      var a := UnsignedAbs(reply.minRel); var c := a + reply.curRel;
      && (reply.dpiStatus != 0 ==> r == Fail(Err(DpiQueryFailed(reply.dpiStatus))))
      && (reply.dpiStatus == 0 && !(0 <= c < |DpiValues|) ==> r == Fail(Err(DpiIndexOutOfRange)))
      && (reply.dpiStatus == 0 && 0 <= c < |DpiValues| && a >= |DpiValues| ==>
            r == Fail(Panic(RecommendedIndexOutOfBounds)))
      && (reply.dpiStatus == 0 && 0 <= c < |DpiValues| && a < |DpiValues| ==>
            r == Ok((DpiValues[c], DpiValues[a])))
      && (r.Ok? ==> r.value.0 in DpiValues && r.value.1 in DpiValues)
  {
    var reply := os.dpiScale(h, p.sourceAdapter, p.sourceId);
    ScalingFromOffsetsCases(reply.minRel, reply.curRel);
  }

  /* ---------------- enumeration ---------------- */

  /** A path describes a renderable framebuffer when its source-mode index is
      not the sentinel, lies inside the mode buffer, and names a source mode. */
  predicate Included(p: PathInfo, modes: seq<ModeInfo>) {
    && p.sourceModeIdx != 0xFFFF_FFFF
    && p.sourceModeIdx < |modes|
    && modes[p.sourceModeIdx].Source?
  }

  /** An included path's name and scaling lookups both succeed (a skipped
      path makes no lookup). */
  predicate LookupsSucceed(os: Os, h: History, modes: seq<ModeInfo>, p: PathInfo) {
    Included(p, modes) ==> DisplayName(os, h, p).Ok? && DisplayScaling(os, h, p).Ok?
  }

  /** What one iteration of the enumeration loop does with a path. */
  datatype Entry = Skip | Show(info: DisplayInfo) | Abort(why: Failure)

  /** The loop body of `enumerate_displays` (display.rs:59-96) for one path:
      skip it, abort the enumeration, or produce its snapshot. */
  function PathEntry(os: Os, h: History, modes: seq<ModeInfo>, p: PathInfo): Entry {
    if p.sourceModeIdx == 0xFFFF_FFFF || p.sourceModeIdx >= |modes| then Skip
    else
      var m := modes[p.sourceModeIdx];
      if !m.Source? then Skip
      else match DisplayName(os, h, p)
        case Fail(why) => Abort(why)
        case Ok(name) =>
          match DisplayScaling(os, h, p)
          case Fail(why) => Abort(why)
          case Ok(scaling) => Show(DisplayInfo(name, p.sourceId, m.width, m.height, scaling.0, scaling.1))
  }

  /** What the loop body yields: a skip exactly for the excluded paths, an
      abort exactly when a lookup fails (the name's failure first), and
      otherwise the snapshot built from the lookups and the source mode. */
  lemma PathEntryCases(os: Os, h: History, modes: seq<ModeInfo>, p: PathInfo)
    ensures var e := PathEntry(os, h, modes, p);
      && (e.Skip? <==> !Included(p, modes))
      && (e.Abort? <==> !LookupsSucceed(os, h, modes, p))
      && (Included(p, modes) && DisplayName(os, h, p).Fail? ==> e == Abort(DisplayName(os, h, p).why))
      && (Included(p, modes) && DisplayName(os, h, p).Ok? && DisplayScaling(os, h, p).Fail? ==>
            e == Abort(DisplayScaling(os, h, p).why))
      && (e.Show? ==>
            var m := modes[p.sourceModeIdx];
            && DisplayName(os, h, p) == Ok(e.info.friendlyName)
            && DisplayScaling(os, h, p) == Ok((e.info.scalingCurrent, e.info.scalingRecommended))
            && e.info.sourceId == p.sourceId
            && e.info.width == m.width && e.info.height == m.height
            && e.info.scalingCurrent in DpiValues && e.info.scalingRecommended in DpiValues)
  {
    DisplayScalingCases(os, h, p);
  }

  function Entries(os: Os, h: History, t: Topology): (es: seq<Entry>)
    ensures |es| == |t.paths|
    ensures forall k :: 0 <= k < |es| ==> es[k] == PathEntry(os, h, t.modes, t.paths[k])
  {
    seq(|t.paths|, k requires 0 <= k < |t.paths| => PathEntry(os, h, t.modes, t.paths[k]))
  }

  /** The first entry that aborts, if any. */
  function FirstAbort(es: seq<Entry>): (r: Option<nat>)
    ensures r.Some? ==> r.value < |es| && es[r.value].Abort?
    ensures r.Some? ==> forall k :: 0 <= k < r.value ==> !es[k].Abort?
    ensures r.None? <==> forall k :: 0 <= k < |es| ==> !es[k].Abort?
  {
    if es == [] then None
    else if es[0].Abort? then Some(0)
    else match FirstAbort(es[1..])
      case None => None
      case Some(k) => Some(k + 1)
  }

  /** The snapshots of the entries that produced one, in entry order. */
  function Shown(es: seq<Entry>): (ds: seq<DisplayInfo>)
    ensures |ds| <= |es|
  {
    if es == [] then []
    else Shown(es[..|es| - 1]) + if es[|es| - 1].Show? then [es[|es| - 1].info] else []
  }

  /** The positions of the entries that produced a snapshot, ascending. */
  function ShownPositions(es: seq<Entry>): (ix: seq<nat>)
    ensures forall m :: 0 <= m < |ix| ==> ix[m] < |es| && es[ix[m]].Show?
    ensures forall m, n :: 0 <= m < n < |ix| ==> ix[m] < ix[n]
  {
    if es == [] then []
    else ShownPositions(es[..|es| - 1]) + if es[|es| - 1].Show? then [|es| - 1] else []
  }

  /** `Shown` is a filter: its m-th snapshot is that of the m-th producing
      entry, and no producing entry is missed. */
  lemma {:induction false} ShownIsFilter(es: seq<Entry>)
    ensures var ds, ix := Shown(es), ShownPositions(es);
      && |ix| == |ds|
      && (forall m :: 0 <= m < |ix| ==> ds[m] == es[ix[m]].info)
      && (forall k :: 0 <= k < |es| && es[k].Show? ==> k in ix)
  {
    if es != [] {
      var init := es[..|es| - 1];
      ShownIsFilter(init);
      assert forall k :: 0 <= k < |init| ==> init[k] == es[k];
    }
  }

  lemma ShownStep(es: seq<Entry>, i: nat)
    requires i < |es|
    ensures Shown(es[..i + 1]) == Shown(es[..i]) + if es[i].Show? then [es[i].info] else []
  {
    assert es[..i + 1][..i] == es[..i];
  }

  /** The outcome of a pass over the entries: the failure of the first
      entry that aborts, else the snapshots of all entries. */
  function Scan(es: seq<Entry>): Outcome<seq<DisplayInfo>> {
    match FirstAbort(es)
    case Some(k) => Fail(es[k].why)
    case None => Ok(Shown(es))
  }

  /** `enumerate_displays` as a value: the query's failure, else the pass
      over the entries of its paths. */
  function Enumeration(os: Os, h: History): Outcome<seq<DisplayInfo>> {
    var t :- QueriedTopology(os, h);
    Scan(Entries(os, h, t))
  }

  predicate AllLookupsSucceed(os: Os, h: History, t: Topology) {
    forall k :: 0 <= k < |t.paths| ==> LookupsSucceed(os, h, t.modes, t.paths[k])
  }

  /** All or nothing: enumeration succeeds exactly when the query does and
      every included path's name and scaling lookups succeed. */
  lemma EnumerationSucceedsIff(os: Os, h: History)
    ensures Enumeration(os, h).Ok? <==>
      QueriedTopology(os, h).Ok? && AllLookupsSucceed(os, h, QueriedTopology(os, h).value)
    ensures QueriedTopology(os, h).Fail? ==> Enumeration(os, h) == Fail(QueriedTopology(os, h).why)
  {
    if QueriedTopology(os, h).Ok? {
      var t := QueriedTopology(os, h).value;
      var es := Entries(os, h, t);
      forall k | 0 <= k < |es|
        ensures es[k].Abort? <==> !LookupsSucceed(os, h, t.modes, t.paths[k])
      {
        PathEntryCases(os, h, t.modes, t.paths[k]);
      }
    }
  }

  /** A failing path fails the whole enumeration with its own failure (the
      name's, else the scaling's) when every path before it succeeded; the
      snapshots built so far are dropped. */
  lemma EnumerationFailsAtFirst(os: Os, h: History, k: nat)
    requires QueriedTopology(os, h).Ok?
    requires var t := QueriedTopology(os, h).value;
      && k < |t.paths| && !LookupsSucceed(os, h, t.modes, t.paths[k])
      && forall j :: 0 <= j < k ==> LookupsSucceed(os, h, t.modes, t.paths[j])
    ensures var t := QueriedTopology(os, h).value; var p := t.paths[k];
      && (DisplayName(os, h, p).Fail? ==> Enumeration(os, h) == Fail(DisplayName(os, h, p).why))
      && (DisplayName(os, h, p).Ok? ==> Enumeration(os, h) == Fail(DisplayScaling(os, h, p).why))
  {
    var t := QueriedTopology(os, h).value;
    var es := Entries(os, h, t);
    PathEntryCases(os, h, t.modes, t.paths[k]);
    forall j | 0 <= j < k
      ensures !es[j].Abort?
    {
      PathEntryCases(os, h, t.modes, t.paths[j]);
    }
    assert FirstAbort(es) == Some(k);
  }

  /** Filtering and order: on success the snapshots are exactly those of the
      included paths, in path order, each with its own source id, the size of
      the source mode it indexes, the name and the scalings its own lookups
      gave, which are catalog members. */
  lemma EnumerationSelectsIncluded(os: Os, h: History)
    requires Enumeration(os, h).Ok?
    ensures QueriedTopology(os, h).Ok?
    ensures var t := QueriedTopology(os, h).value; var ds := Enumeration(os, h).value;
      var ix := ShownPositions(Entries(os, h, t));
      && |ds| == |ix| <= |t.paths|
      && (forall m, n :: 0 <= m < n < |ix| ==> ix[m] < ix[n])
      && (forall k :: 0 <= k < |t.paths| ==> (k in ix <==> Included(t.paths[k], t.modes)))
      && (forall m :: 0 <= m < |ix| ==>
            var p := t.paths[ix[m]]; var mode := t.modes[p.sourceModeIdx];
            && ds[m].sourceId == p.sourceId
            && ds[m].width == mode.width && ds[m].height == mode.height
            && DisplayName(os, h, p) == Ok(ds[m].friendlyName)
            && DisplayScaling(os, h, p) == Ok((ds[m].scalingCurrent, ds[m].scalingRecommended))
            && ds[m].scalingCurrent in DpiValues && ds[m].scalingRecommended in DpiValues)
  {
    var t := QueriedTopology(os, h).value;
    var es := Entries(os, h, t);
    ShownIsFilter(es);
    forall k | 0 <= k < |es|
      ensures es[k].Show? <==> Included(t.paths[k], t.modes)
      ensures es[k].Show? ==>
        var mode := t.modes[t.paths[k].sourceModeIdx];
        && es[k].info.sourceId == t.paths[k].sourceId
        && es[k].info.width == mode.width && es[k].info.height == mode.height
        && DisplayName(os, h, t.paths[k]) == Ok(es[k].info.friendlyName)
        && DisplayScaling(os, h, t.paths[k]) == Ok((es[k].info.scalingCurrent, es[k].info.scalingRecommended))
        && es[k].info.scalingCurrent in DpiValues && es[k].info.scalingRecommended in DpiValues
    {
      PathEntryCases(os, h, t.modes, t.paths[k]);
    }
  }

  /** The body of the `for` loop of `enumerate_displays` (display.rs:59-96)
      for one path: skip it, stop with the failure that `?` propagates, or
      build its snapshot. */
  method ReadPath(os: Os, h: History, modes: array<ModeInfo>, path: PathInfo) returns (e: Entry)
    ensures e == PathEntry(os, h, modes[..], path)
  {
    var modeIdx := path.sourceModeIdx;
    if modeIdx == 0xFFFF_FFFF || modeIdx >= modes.Length {
      return Skip;
    }
    var mode := modes[modeIdx];
    if !mode.Source? {
      return Skip;
    }
    var name := DisplayName(os, h, path);
    if name.Fail? {
      return Abort(name.why);
    }
    var scaling := DisplayScaling(os, h, path);
    if scaling.Fail? {
      return Abort(scaling.why);
    }
    return Show(DisplayInfo(name.value, path.sourceId, mode.width, mode.height, scaling.value.0, scaling.value.1));
  }

  /** The `for` loop of `enumerate_displays` (display.rs:59-97) over the
      path buffer, each path read against the mode buffer. */
  method ScanPaths(os: Os, h: History, paths: array<PathInfo>, modes: array<ModeInfo>, ghost es: seq<Entry>)
    returns (r: Outcome<seq<DisplayInfo>>)
    requires paths.Length == |es|
    requires forall k {:trigger paths[k]} :: 0 <= k < |es| ==> es[k] == PathEntry(os, h, modes[..], paths[k])
    ensures r == Scan(es)
  {
    var displays: seq<DisplayInfo> := [];
    var i := 0;
    while i < paths.Length
      invariant 0 <= i <= paths.Length
      invariant forall k :: 0 <= k < i ==> !es[k].Abort?
      invariant displays == Shown(es[..i])
    {
      var e := ReadPath(os, h, modes, paths[i]);
      if e.Abort? {
        assert FirstAbort(es) == Some(i);
        return Fail(e.why);
      }
      ShownStep(es, i);
      if e.Show? {
        displays := displays + [e.info];
      }
      i := i + 1;
    }
    assert es[..i] == es;
    return Ok(displays);
  }

  /** `enumerate_displays` (display.rs:54-100): one query, then one pass over
      the path buffer, skipping unusable paths and appending a snapshot for
      every other; the first failing lookup ends the pass. */
  method EnumerateDisplays(os: Os, h: History) returns (r: Outcome<seq<DisplayInfo>>)
    ensures r == Enumeration(os, h)
  {
    var buffers :- GetDisplayConfig(os, h);
    ghost var es := Entries(os, h, QueriedTopology(os, h).value);
    r := ScanPaths(os, h, buffers.paths, buffers.modes, es);
  }
}
