/** The writer side of display.rs: `apply_display_config` and the two
    updates it sequences.  Each update re-queries the topology, finds the
    display's path by its source id and commits one change.  A `Run` is the
    outcome together with the commits issued, oldest first; a commit is
    recorded when the set call is made, whatever status it returns. */
module Apply {
  import opened Machine
  import opened Outcomes
  import opened Catalog
  import opened Os
  import opened Display

  datatype Run = Run(outcome: Outcome<()>, commits: seq<Commit>)

  /** The change test of `apply_display_config` (display.rs:106-107). */
  predicate ResolutionChanged(d: DisplayInfo, c: DisplayConfig) {
    d.width != c.width || d.height != c.height
  }

  predicate ScalingChanged(d: DisplayInfo, c: DisplayConfig) {
    d.scalingCurrent != c.scaling
  }

  /* ---------------- the mode-record write ---------------- */

  /** The two words where a source mode keeps its width and height. */
  function SizeWords(m: ModeInfo): (uint32, uint32) {
    match m
    case Source(_, _, width, height, _, _, _) => (width, height)
    case Other(_, _, word0, word1) => (word0, word1)
  }

  /** The header of a mode record: its kind, adapter and id. */
  predicate SameHeader(a: ModeInfo, b: ModeInfo) {
    a.Source? == b.Source? && a.adapter == b.adapter && a.id == b.id
  }

  /** `mode.Anonymous.sourceMode.width/height = …` (display.rs:249-250): the
      union is written as a source mode whatever the record's kind. */
  function WithSourceSize(m: ModeInfo, width: uint32, height: uint32): (r: ModeInfo)
    ensures SameHeader(r, m)
    ensures SizeWords(r) == (width, height)
    ensures r.Source? ==> r.pixelFormat == m.pixelFormat && r.x == m.x && r.y == m.y
  {
    match m
    case Source(_, _, _, _, _, _, _) => m.(width := width, height := height)
    case Other(_, _, _, _) => m.(word0 := width, word1 := height)
  }

  /** The write behaves like a field update: writing back what is there
      changes nothing, and a second write wins over the first. */
  lemma WithSourceSizeLaws(m: ModeInfo, w1: uint32, h1: uint32, w2: uint32, h2: uint32)
    ensures WithSourceSize(m, SizeWords(m).0, SizeWords(m).1) == m
    ensures WithSourceSize(WithSourceSize(m, w1, h1), w2, h2) == WithSourceSize(m, w2, h2)
  {
  }

  /* ---------------- apply_display_resolution ---------------- */

  /** `apply_display_resolution` (display.rs:225-266) as a value: re-query,
      find the first path with the display's source id (panics if none),
      index the mode buffer with its source-mode index (panics if out of
      bounds), write the new size into that record and submit both buffers. */
  function ResolutionUpdate(os: Os, h: History, d: DisplayInfo, c: DisplayConfig): Run {
    match QueriedTopology(os, h)
    case Fail(why) => Run(Fail(why), [])
    case Ok(t) =>
      match FindBySource(t.paths, d.sourceId)
      case None => Run(Fail(Panic(PathNotFound)), [])
      case Some(k) =>
        var idx := t.paths[k].sourceModeIdx;
        if idx >= |t.modes| then Run(Fail(Panic(ModeIndexOutOfBounds)), [])
        else
          var modes := t.modes[idx := WithSourceSize(t.modes[idx], c.width, c.height)];
          var status := os.setDisplayConfig(h, t.paths, modes, SET_CONFIG_FLAGS);
          var commit := SetConfig(t.paths, modes, SET_CONFIG_FLAGS);
          if status == 0 then Run(Ok(()), [commit])
          else Run(Fail(Err(SetConfigFailed(status))), [commit])
  }

  /** The resolution update gets as far as its commit: the query succeeds,
      a path has the display's source id, and that path's source-mode index
      lies inside the mode buffer. */
  predicate ResolutionReachesCommit(os: Os, h: History, d: DisplayInfo) {
    && QueriedTopology(os, h).Ok?
    && var t := QueriedTopology(os, h).value;
    && FindBySource(t.paths, d.sourceId).Some?
    && t.paths[FindBySource(t.paths, d.sourceId).value].sourceModeIdx < |t.modes|
  }

  /** What reaches the OS: exactly one topology commit when the query
      succeeded and found the path and its mode, and none otherwise.  It submits the
      queried paths unchanged and the queried modes with only the path's own
      mode record changed, that record now holding the configured size under
      its old header.  The update succeeds exactly when that commit returns 0. */
  lemma ResolutionUpdateCommit(os: Os, h: History, d: DisplayInfo, c: DisplayConfig)
    ensures var r := ResolutionUpdate(os, h, d, c);
      && |r.commits| <= 1
      && (r.commits != [] <==> ResolutionReachesCommit(os, h, d))
      && (r.commits == [] ==> r.outcome.Fail?)
      && (r.commits != [] ==>
            && var t := QueriedTopology(os, h).value;
            && var idx := t.paths[FindBySource(t.paths, d.sourceId).value].sourceModeIdx;
            && var sent := r.commits[0];
            && sent.SetConfig? && sent.paths == t.paths && sent.flags == SET_CONFIG_FLAGS
            && |sent.modes| == |t.modes|
            && (forall j :: 0 <= j < |t.modes| && j != idx ==> sent.modes[j] == t.modes[j])
            && sent.modes[idx] == WithSourceSize(t.modes[idx], c.width, c.height)
            && SameHeader(sent.modes[idx], t.modes[idx])
            && SizeWords(sent.modes[idx]) == (c.width, c.height)
            && (r.outcome.Ok? <==> os.setDisplayConfig(h, sent.paths, sent.modes, sent.flags) == 0)
            && (r.outcome.Fail? ==>
                  r.outcome.why == Err(SetConfigFailed(os.setDisplayConfig(h, sent.paths, sent.modes, sent.flags)))))
  {
  }

  /** The shape of the resolution update's trace: at most one commit, a
      topology commit. */
  lemma ResolutionUpdateShape(os: Os, h: History, d: DisplayInfo, c: DisplayConfig)
    ensures var r := ResolutionUpdate(os, h, d, c);
      && (r.commits == [] ==> r.outcome.Fail?)
      && (r.commits != [] ==> |r.commits| == 1 && r.commits[0].SetConfig?)
  {
  }

  /** The three ways the update stops before committing. */
  lemma ResolutionUpdateFailures(os: Os, h: History, d: DisplayInfo, c: DisplayConfig)
    ensures QueriedTopology(os, h).Fail? ==>
      ResolutionUpdate(os, h, d, c) == Run(Fail(QueriedTopology(os, h).why), [])
    ensures (&& QueriedTopology(os, h).Ok?
             && forall k :: 0 <= k < |QueriedTopology(os, h).value.paths| ==>
                  QueriedTopology(os, h).value.paths[k].sourceId != d.sourceId) ==>
      ResolutionUpdate(os, h, d, c) == Run(Fail(Panic(PathNotFound)), [])
    ensures QueriedTopology(os, h).Ok? ==>
      var t := QueriedTopology(os, h).value;
      var k := FindBySource(t.paths, d.sourceId);
      k.Some? && t.paths[k.value].sourceModeIdx >= |t.modes| ==>
        ResolutionUpdate(os, h, d, c) == Run(Fail(Panic(ModeIndexOutOfBounds)), [])
  {
  }

  /** `apply_display_resolution`: the freshly queried mode buffer is updated
      in place, then both buffers are submitted. */
  method ApplyDisplayResolution(os: Os, h: History, d: DisplayInfo, c: DisplayConfig) returns (r: Run)
    ensures r == ResolutionUpdate(os, h, d, c)
  {
    var buffers := GetDisplayConfig(os, h);
    if buffers.Fail? {
      return Run(Fail(buffers.why), []);
    }
    var paths, modes := buffers.value.paths, buffers.value.modes;
    var found := FindBySource(paths[..], d.sourceId);
    if found.None? {
      return Run(Fail(Panic(PathNotFound)), []);
    }
    var idx := paths[found.value].sourceModeIdx;
    if idx >= modes.Length {
      return Run(Fail(Panic(ModeIndexOutOfBounds)), []);
    }
    modes[idx] := WithSourceSize(modes[idx], c.width, c.height);
    var status := os.setDisplayConfig(h, paths[..], modes[..], SET_CONFIG_FLAGS);
    var commit := SetConfig(paths[..], modes[..], SET_CONFIG_FLAGS);
    if status != 0 {
      return Run(Fail(Err(SetConfigFailed(status))), [commit]);
    }
    return Run(Ok(()), [commit]);
  }

  /* ---------------- apply_display_scaling ---------------- */

  /** `apply_display_scaling` (display.rs:268-312) as a value: re-query,
      find the path (panics if none), re-read its scaling, turn the
      recommended and the target percentages into a relative offset (panics
      if either is not in the catalog) and set it for the display's source. */
  function ScalingUpdate(os: Os, h: History, d: DisplayInfo, c: DisplayConfig): Run {
    match QueriedTopology(os, h)
    case Fail(why) => Run(Fail(why), [])
    case Ok(t) =>
      match FindBySource(t.paths, d.sourceId)
      case None => Run(Fail(Panic(PathNotFound)), [])
      case Some(k) =>
        var path := t.paths[k];
        match DisplayScaling(os, h, path)
        case Fail(why) => Run(Fail(why), [])
        case Ok(scale) =>
          match RelativeOffset(scale.1, c.scaling)
          case Fail(why) => Run(Fail(why), [])
          case Ok(relative) =>
            var status := os.setDpiScale(h, path.sourceAdapter, d.sourceId, relative);
            var commit := SetDpi(path.sourceAdapter, d.sourceId, relative);
            if status == 0 then Run(Ok(()), [commit])
            else Run(Fail(Err(SetDpiFailed(status))), [commit])
  }

  /** The scaling update gets as far as its set call: the query succeeds, a
      path has the display's source id, its fresh DPI reading succeeds, and
      the target is a catalog member. */
  predicate ScalingReachesCommit(os: Os, h: History, d: DisplayInfo, c: DisplayConfig) {
    && QueriedTopology(os, h).Ok?
    && var t := QueriedTopology(os, h).value;
    && FindBySource(t.paths, d.sourceId).Some?
    && DisplayScaling(os, h, t.paths[FindBySource(t.paths, d.sourceId).value]).Ok?
    && c.scaling in DpiValues
  }

  /** The set call is made exactly when the steps before it succeed; the
      recommended value always comes from the catalog, so only the target's
      membership can still stop it. */
  lemma ScalingUpdateReachesCommit(os: Os, h: History, d: DisplayInfo, c: DisplayConfig)
    ensures ScalingUpdate(os, h, d, c).commits != [] <==> ScalingReachesCommit(os, h, d, c)
  {
    match QueriedTopology(os, h)
    case Fail(_) =>
    case Ok(t) =>
      match FindBySource(t.paths, d.sourceId)
      case None =>
      case Some(k) =>
        match DisplayScaling(os, h, t.paths[k])
        case Fail(_) =>
        case Ok(scale) =>
          DisplayScalingCases(os, h, t.paths[k]);
          RelativeOffsetOfMembers(scale.1, c.scaling);
  }

  /** The set call that was made: after a successful DPI reading with
      |min| inside the catalog, to the path's adapter and the display's id,
      with the offset that steps from index |min| to the target. */
  lemma ScalingUpdateSent(os: Os, h: History, d: DisplayInfo, c: DisplayConfig)
    requires ScalingUpdate(os, h, d, c).commits != []
    ensures QueriedTopology(os, h).Ok?
    ensures FindBySource(QueriedTopology(os, h).value.paths, d.sourceId).Some?
    ensures var r := ScalingUpdate(os, h, d, c);
      var t := QueriedTopology(os, h).value;
      var p := t.paths[FindBySource(t.paths, d.sourceId).value];
      var reply := os.dpiScale(h, p.sourceAdapter, p.sourceId);
      var base := UnsignedAbs(reply.minRel);
      var sent := r.commits[0];
      && |r.commits| == 1
      && reply.dpiStatus == 0
      && base < |DpiValues|
      && sent == SetDpi(p.sourceAdapter, d.sourceId, sent.relative)
      && 0 <= base + sent.relative < |DpiValues|
      && DpiValues[base + sent.relative] == c.scaling
      && (r.outcome.Ok? <==> os.setDpiScale(h, sent.adapter, sent.id, sent.relative) == 0)
      && (r.outcome.Fail? ==>
            r.outcome.why == Err(SetDpiFailed(os.setDpiScale(h, sent.adapter, sent.id, sent.relative))))
  {
    var t := QueriedTopology(os, h).value;
    var p := t.paths[FindBySource(t.paths, d.sourceId).value];
    var reply := os.dpiScale(h, p.sourceAdapter, p.sourceId);
    var base := UnsignedAbs(reply.minRel);
    var scale := DisplayScaling(os, h, p);
    var offset := RelativeOffset(scale.value.1, c.scaling);
    assert scale.Ok? && offset.Ok?;
    var sent := SetDpi(p.sourceAdapter, d.sourceId, offset.value);
    assert ScalingUpdate(os, h, d, c).commits == [sent];
    DisplayScalingCases(os, h, p);
    assert scale.value.1 == DpiValues[base];
    PositionOfMember(base);
    RelativeOffsetCases(DpiValues[base], c.scaling);
  }

  /** The DPI the update sets: exactly one set call when the path and a
      fresh scaling reading were found and the target is in the catalog,
      and none otherwise.  Its offset, added to the recommended index |min|
      the OS reported, is the catalog index of the target: the OS measures
      the offset from the recommended scaling, not from the current one. */
  lemma ScalingUpdateCommit(os: Os, h: History, d: DisplayInfo, c: DisplayConfig)
    ensures var r := ScalingUpdate(os, h, d, c);
      && |r.commits| <= 1
      && (r.commits != [] <==> ScalingReachesCommit(os, h, d, c))
      && (r.commits == [] ==> r.outcome.Fail?)
      && (r.commits != [] ==>
            && var t := QueriedTopology(os, h).value;
            && var p := t.paths[FindBySource(t.paths, d.sourceId).value];
            && var reply := os.dpiScale(h, p.sourceAdapter, p.sourceId);
            && var base := UnsignedAbs(reply.minRel);
            && var sent := r.commits[0];
            && reply.dpiStatus == 0
            && base < |DpiValues|
            && sent == SetDpi(p.sourceAdapter, d.sourceId, sent.relative)
            && 0 <= base + sent.relative < |DpiValues|
            && DpiValues[base + sent.relative] == c.scaling
            && (r.outcome.Ok? <==> os.setDpiScale(h, sent.adapter, sent.id, sent.relative) == 0)
            && (r.outcome.Fail? ==>
                  r.outcome.why == Err(SetDpiFailed(os.setDpiScale(h, sent.adapter, sent.id, sent.relative)))))
  {
    ScalingUpdateReachesCommit(os, h, d, c);
    ScalingUpdateShape(os, h, d, c);
    if ScalingUpdate(os, h, d, c).commits != [] {
      ScalingUpdateSent(os, h, d, c);
    }
  }

  /** The shape of the scaling update's trace: at most one commit, a DPI
      commit. */
  lemma ScalingUpdateShape(os: Os, h: History, d: DisplayInfo, c: DisplayConfig)
    ensures var r := ScalingUpdate(os, h, d, c);
      && (r.commits == [] ==> r.outcome.Fail?)
      && (r.commits != [] ==> |r.commits| == 1 && r.commits[0].SetDpi?)
  {
    match QueriedTopology(os, h)
    case Fail(_) =>
    case Ok(t) =>
      match FindBySource(t.paths, d.sourceId)
      case None =>
      case Some(k) =>
        match DisplayScaling(os, h, t.paths[k])
        case Fail(_) =>
        case Ok(scale) =>
          match RelativeOffset(scale.1, c.scaling)
          case Fail(_) =>
          case Ok(_) =>
  }

  /** The stops before the set call, each with its outcome: a failed query
      or fresh DPI reading passes its failure on, a missing path panics, and
      a target outside the catalog never reaches the OS (it panics in
      `unwrap` once the lookups before it succeeded).  The recommended value
      always comes from the catalog, so its own `unwrap` never panics. */
  lemma ScalingUpdateFailures(os: Os, h: History, d: DisplayInfo, c: DisplayConfig)
    ensures c.scaling !in DpiValues ==>
      ScalingUpdate(os, h, d, c).commits == [] && ScalingUpdate(os, h, d, c).outcome.Fail?
    ensures ScalingUpdate(os, h, d, c).outcome != Fail(Panic(RecommendedNotInCatalog))
    ensures QueriedTopology(os, h).Fail? ==>
      ScalingUpdate(os, h, d, c) == Run(Fail(QueriedTopology(os, h).why), [])
    ensures (QueriedTopology(os, h).Ok? && FindBySource(QueriedTopology(os, h).value.paths, d.sourceId).None?) ==>
      ScalingUpdate(os, h, d, c) == Run(Fail(Panic(PathNotFound)), [])
    ensures (QueriedTopology(os, h).Ok? && FindBySource(QueriedTopology(os, h).value.paths, d.sourceId).Some?) ==>
      var t := QueriedTopology(os, h).value;
      var p := t.paths[FindBySource(t.paths, d.sourceId).value];
      && (DisplayScaling(os, h, p).Fail? ==> ScalingUpdate(os, h, d, c) == Run(Fail(DisplayScaling(os, h, p).why), []))
      && (DisplayScaling(os, h, p).Ok? && c.scaling !in DpiValues ==>
            ScalingUpdate(os, h, d, c) == Run(Fail(Panic(TargetNotInCatalog)), []))
  {
    ScalingUpdateCommit(os, h, d, c);
    match QueriedTopology(os, h)
    case Fail(_) =>
    case Ok(t) =>
      match FindBySource(t.paths, d.sourceId)
      case None =>
      case Some(k) =>
        var path := t.paths[k];
        match DisplayScaling(os, h, path)
        case Fail(_) =>
        case Ok(scale) =>
          DisplayScalingCases(os, h, path);
          RelativeOffsetOfMembers(scale.1, c.scaling);
  }

  /** `apply_display_scaling`. */
  method ApplyDisplayScaling(os: Os, h: History, d: DisplayInfo, c: DisplayConfig) returns (r: Run)
    ensures r == ScalingUpdate(os, h, d, c)
  {
    var buffers := GetDisplayConfig(os, h);
    if buffers.Fail? {
      return Run(Fail(buffers.why), []);
    }
    var paths := buffers.value.paths;
    var found := FindBySource(paths[..], d.sourceId);
    if found.None? {
      return Run(Fail(Panic(PathNotFound)), []);
    }
    var path := paths[found.value];
    var scale := DisplayScaling(os, h, path);
    if scale.Fail? {
      return Run(Fail(scale.why), []);
    }
    var relative := RelativeOffset(scale.value.1, c.scaling);
    if relative.Fail? {
      return Run(Fail(relative.why), []);
    }
    var status := os.setDpiScale(h, path.sourceAdapter, d.sourceId, relative.value);
    var commit := SetDpi(path.sourceAdapter, d.sourceId, relative.value);
    if status != 0 {
      return Run(Fail(Err(SetDpiFailed(status))), [commit]);
    }
    return Run(Ok(()), [commit]);
  }

  /* ---------------- apply_display_config ---------------- */

  /** `apply_display_config` (display.rs:102-123) as a value: nothing when
      the display already matches; otherwise the resolution update when the
      size differs, then, unless that failed, the scaling update when the
      scaling differs, made against the OS as the first update left it. */
  function ConfigUpdate(os: Os, h: History, d: DisplayInfo, c: DisplayConfig): Run {
    if !ResolutionChanged(d, c) && !ScalingChanged(d, c) then Run(Ok(()), [])
    else
      var first := if ResolutionChanged(d, c) then ResolutionUpdate(os, h, d, c) else Run(Ok(()), []);
      if first.outcome.Fail? || !ScalingChanged(d, c) then first
      else
        var second := ScalingUpdate(os, h + first.commits, d, c);
        Run(second.outcome, first.commits + second.commits)
  }

  /** Nothing is committed and the call succeeds exactly when the requested
      configuration is the one the display already has. */
  lemma ConfigUpdateNoopIff(os: Os, h: History, d: DisplayInfo, c: DisplayConfig)
    ensures ConfigUpdate(os, h, d, c) == Run(Ok(()), []) <==> !ResolutionChanged(d, c) && !ScalingChanged(d, c)
  {
    ResolutionUpdateShape(os, h, d, c);
    if ResolutionChanged(d, c) && ResolutionUpdate(os, h, d, c).outcome.Ok? && ScalingChanged(d, c) {
      ScalingUpdateShape(os, h + ResolutionUpdate(os, h, d, c).commits, d, c);
    } else if !ResolutionChanged(d, c) && ScalingChanged(d, c) {
      ScalingUpdateShape(os, h, d, c);
    }
  }

  /** Applying the display's own configuration again does nothing. */
  lemma ReapplyIsNoop(os: Os, h: History, d: DisplayInfo)
    ensures ConfigUpdate(os, h, d, DisplayConfig(d.width, d.height, d.scalingCurrent)) == Run(Ok(()), [])
  {
  }

  /** The commit trace: at most one topology commit, only when the size
      changed, and it comes first; at most one DPI commit, only when the
      scaling changed, and it comes last. */
  lemma ConfigUpdateOrder(os: Os, h: History, d: DisplayInfo, c: DisplayConfig)
    ensures var cs := ConfigUpdate(os, h, d, c).commits;
      && |cs| <= 2
      && (|cs| == 2 ==> cs[0].SetConfig? && cs[1].SetDpi?)
      && (cs != [] && cs[0].SetConfig? ==> ResolutionChanged(d, c))
      && (cs != [] && cs[|cs| - 1].SetDpi? ==> ScalingChanged(d, c))
  {
    var first := if ResolutionChanged(d, c) then ResolutionUpdate(os, h, d, c) else Run(Ok(()), []);
    ResolutionUpdateShape(os, h, d, c);
    if (ResolutionChanged(d, c) || ScalingChanged(d, c)) && first.outcome.Ok? && ScalingChanged(d, c) {
      var second := ScalingUpdate(os, h + first.commits, d, c);
      ScalingUpdateShape(os, h + first.commits, d, c);
      assert ConfigUpdate(os, h, d, c).commits == first.commits + second.commits;
    }
  }

  /** Sequencing: a size change runs the resolution update, and when that
      fails or is the only change its run is the whole call's; a failing
      resolution update ends the call with its own failure, and no DPI is
      set; otherwise a scaling change is made against
      the OS as the resolution update left it, after its commit, and decides
      the outcome; without a scaling change no DPI is set at all. */
  lemma ConfigUpdateSequencing(os: Os, h: History, d: DisplayInfo, c: DisplayConfig)
    ensures ResolutionChanged(d, c) && ResolutionUpdate(os, h, d, c).outcome.Fail? ==>
      var r := ConfigUpdate(os, h, d, c);
      && r.outcome == ResolutionUpdate(os, h, d, c).outcome
      && forall k :: 0 <= k < |r.commits| ==> !r.commits[k].SetDpi?
    ensures ResolutionChanged(d, c) && (ResolutionUpdate(os, h, d, c).outcome.Fail? || !ScalingChanged(d, c)) ==>
      ConfigUpdate(os, h, d, c) == ResolutionUpdate(os, h, d, c)
    ensures ScalingChanged(d, c) && (ResolutionChanged(d, c) ==> ResolutionUpdate(os, h, d, c).outcome.Ok?) ==>
      var first := if ResolutionChanged(d, c) then ResolutionUpdate(os, h, d, c).commits else [];
      var second := ScalingUpdate(os, h + first, d, c);
      && ConfigUpdate(os, h, d, c).outcome == second.outcome
      && ConfigUpdate(os, h, d, c).commits == first + second.commits
    ensures !ScalingChanged(d, c) ==>
      var r := ConfigUpdate(os, h, d, c);
      forall k :: 0 <= k < |r.commits| ==> !r.commits[k].SetDpi?
  {
    ResolutionUpdateShape(os, h, d, c);
  }

  /** `apply_display_config`. */
  method ApplyDisplayConfig(os: Os, h: History, d: DisplayInfo, c: DisplayConfig) returns (r: Run)
    ensures r == ConfigUpdate(os, h, d, c)
  {
    var resolutionChanged := d.width != c.width || d.height != c.height;
    var scalingChanged := d.scalingCurrent != c.scaling;
    if !resolutionChanged && !scalingChanged {
      return Run(Ok(()), []);
    }
    var commits: seq<Commit> := [];
    if resolutionChanged {
      var first := ApplyDisplayResolution(os, h, d, c);
      commits := first.commits;
      if first.outcome.Fail? {
        return first;
      }
    }
    if scalingChanged {
      var second := ApplyDisplayScaling(os, h + commits, d, c);
      assert h + [] == h;
      return Run(second.outcome, commits + second.commits);
    }
    return Run(Ok(()), commits);
  }
}
