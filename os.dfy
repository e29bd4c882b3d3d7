/** The part of the Windows display-configuration API (CCD) that the display
    layer talks to.  The OS is an oracle: every reply is a function of the
    configuration changes committed before it (the `History`), so that a
    re-query after a commit may see a different topology.  The records keep
    only the fields the code reads or writes; the union inside a mode record
    is a tagged datatype. */
module Os {
  import opened Machine
  import opened Outcomes

  /** A locally unique adapter identifier. */
  datatype Luid = Luid(lowPart: uint32, highPart: int32)

  const ZERO_LUID: Luid := Luid(0, 0)

  /** One active path: its source (adapter, id, index into the mode buffer)
      and its target (adapter, id). */
  datatype PathInfo = PathInfo(
    sourceAdapter: Luid,
    sourceId: uint32,
    sourceModeIdx: uint32,
    targetAdapter: Luid,
    targetId: uint32)

  /** `DISPLAYCONFIG_PATH_INFO::default()`: all fields zero. */
  const DEFAULT_PATH: PathInfo := PathInfo(ZERO_LUID, 0, 0, ZERO_LUID, 0)

  /** One mode record.  A source mode carries the framebuffer size; any other
      record (target mode, desktop image, or a zeroed entry) is represented by
      the first two 32-bit words of its payload, which is where the source-mode
      `width` and `height` fields of the union lie. */
  datatype ModeInfo =
    | Source(adapter: Luid, id: uint32, width: uint32, height: uint32, pixelFormat: uint32, x: int32, y: int32)
    | Other(adapter: Luid, id: uint32, word0: uint32, word1: uint32)

  /** `DISPLAYCONFIG_MODE_INFO::default()`: info type 0, which is not a source mode. */
  const DEFAULT_MODE: ModeInfo := Other(ZERO_LUID, 0, 0, 0)

  /** The flags of the topology commit: SDC_APPLY | SDC_USE_SUPPLIED_DISPLAY_CONFIG
      (0x80 and 0x20, disjoint bits). */
  const SDC_APPLY: uint32 := 0x80
  const SDC_USE_SUPPLIED_DISPLAY_CONFIG: uint32 := 0x20
  const SET_CONFIG_FLAGS: uint32 := SDC_APPLY + SDC_USE_SUPPLIED_DISPLAY_CONFIG

  /** A call that changes the OS's display configuration. */
  datatype Commit =
    | SetConfig(paths: seq<PathInfo>, modes: seq<ModeInfo>, flags: uint32)  // SetDisplayConfig
    | SetDpi(adapter: Luid, id: uint32, relative: int32)                    // DPI device-info set

  /** The commits issued so far, oldest first. */
  type History = seq<Commit>

  datatype SizesReply = SizesReply(sizesStatus: uint32, pathCount: uint32, modeCount: uint32)
  /** The entries the OS writes into the caller's buffers, from the start. */
  datatype QueryReply = QueryReply(queryStatus: uint32, writtenPaths: seq<PathInfo>, writtenModes: seq<ModeInfo>)
  /** The code units the OS writes into the zeroed 64-unit name field. */
  datatype NameReply = NameReply(nameStatus: int32, nameUnits: seq<uint16>)
  datatype DpiReply = DpiReply(dpiStatus: int32, minRel: int32, curRel: int32, maxRel: int32)

  /** The OS, one oracle per foreign call the display layer makes. */
  datatype Os = Os(
    bufferSizes: History -> SizesReply,                                    // GetDisplayConfigBufferSizes
    queryDisplayConfig: History -> QueryReply,                             // QueryDisplayConfig
    targetName: (History, Luid, uint32) -> NameReply,                      // device info: target name
    dpiScale: (History, Luid, uint32) -> DpiReply,                         // device info: DPI scale (-3)
    setDisplayConfig: (History, seq<PathInfo>, seq<ModeInfo>, uint32) -> int32, // SetDisplayConfig
    setDpiScale: (History, Luid, uint32, int32) -> int32)                  // device info set: DPI scale (-4)

  /** A buffer of `count` entries initialised to `blank`, after the OS has
      written `written` into it from the start. */
  function Filled<T>(count: nat, written: seq<T>, blank: T): seq<T> {
    seq(count, k => if 0 <= k < |written| then written[k] else blank)
  }

  /** The path and mode buffers of one query, valid for that query only. */
  datatype Topology = Topology(paths: seq<PathInfo>, modes: seq<ModeInfo>)

  /** `get_display_config` (display.rs:125-159) as a value: size the buffers,
      let the OS fill them; either call failing is an error carrying its
      status.  The buffers keep the sized lengths even when the OS writes
      fewer entries. */
  function QueriedTopology(os: Os, h: History): Outcome<Topology> {
    var sizes := os.bufferSizes(h);
    if sizes.sizesStatus != 0 then Fail(Err(BufferSizesFailed(sizes.sizesStatus)))
    else
      var reply := os.queryDisplayConfig(h);
      if reply.queryStatus != 0 then Fail(Err(QueryFailed(reply.queryStatus)))
      else Ok(Topology(
        Filled(sizes.pathCount, reply.writtenPaths, DEFAULT_PATH),
        Filled(sizes.modeCount, reply.writtenModes, DEFAULT_MODE)))
  }

  /** What a successful query holds: buffers of exactly the sized lengths,
      with what the OS wrote and default entries after it. */
  lemma QueriedTopologyBuffers(os: Os, h: History)
    requires QueriedTopology(os, h).Ok?
    ensures var t := QueriedTopology(os, h).value; var sizes := os.bufferSizes(h);
      var reply := os.queryDisplayConfig(h);
      && sizes.sizesStatus == 0 && reply.queryStatus == 0
      && |t.paths| == sizes.pathCount && |t.modes| == sizes.modeCount
      && (forall k :: 0 <= k < |t.paths| ==> t.paths[k] == if k < |reply.writtenPaths| then reply.writtenPaths[k] else DEFAULT_PATH)
      && (forall k :: 0 <= k < |t.modes| ==> t.modes[k] == if k < |reply.writtenModes| then reply.writtenModes[k] else DEFAULT_MODE)
  {
  }

  /** The query fails exactly when the sizing call or the query reports a
      non-zero status, with the first such status in the error of its own
      call. */
  lemma QueriedTopologyFails(os: Os, h: History)
    ensures var sizes, reply := os.bufferSizes(h), os.queryDisplayConfig(h);
      && (QueriedTopology(os, h).Fail? <==> sizes.sizesStatus != 0 || reply.queryStatus != 0)
      && (sizes.sizesStatus != 0 ==> QueriedTopology(os, h) == Fail(Err(BufferSizesFailed(sizes.sizesStatus))))
      && (sizes.sizesStatus == 0 && reply.queryStatus != 0 ==>
            QueriedTopology(os, h) == Fail(Err(QueryFailed(reply.queryStatus))))
  {
  }

  datatype Buffers = Buffers(paths: array<PathInfo>, modes: array<ModeInfo>)

  /** `get_display_config`: allocate the two buffers at the sizes the OS
      asks for and let the OS fill them in place. */
  method GetDisplayConfig(os: Os, h: History) returns (r: Outcome<Buffers>)
    ensures r.Fail? <==> QueriedTopology(os, h).Fail?
    ensures r.Fail? ==> r.why == QueriedTopology(os, h).why
    ensures r.Ok? ==> fresh(r.value.paths) && fresh(r.value.modes)
    ensures r.Ok? ==> r.value.paths[..] == QueriedTopology(os, h).value.paths
    ensures r.Ok? ==> r.value.modes[..] == QueriedTopology(os, h).value.modes
  {
    var sizes := os.bufferSizes(h);
    if sizes.sizesStatus != 0 {
      return Fail(Err(BufferSizesFailed(sizes.sizesStatus)));
    }
    var paths := new PathInfo[sizes.pathCount](_ => DEFAULT_PATH);
    var modes := new ModeInfo[sizes.modeCount](_ => DEFAULT_MODE);
    var reply := os.queryDisplayConfig(h);
    // The OS writes the active topology into the buffers, up to their capacity.
    forall k | 0 <= k < paths.Length && k < |reply.writtenPaths| {
      paths[k] := reply.writtenPaths[k];
    }
    forall k | 0 <= k < modes.Length && k < |reply.writtenModes| {
      modes[k] := reply.writtenModes[k];
    }
    if reply.queryStatus != 0 {
      return Fail(Err(QueryFailed(reply.queryStatus)));
    }
    r := Ok(Buffers(paths, modes));
  }

  /** `paths.iter().find(|p| p.sourceInfo.id == id)`: the first path whose
      source has that id. */
  function FindBySource(paths: seq<PathInfo>, id: uint32): (r: Option<nat>)
    ensures r.Some? ==> r.value < |paths| && paths[r.value].sourceId == id
    ensures r.Some? ==> forall k :: 0 <= k < r.value ==> paths[k].sourceId != id
    ensures r.None? <==> forall k :: 0 <= k < |paths| ==> paths[k].sourceId != id
  {
    if paths == [] then None
    else if paths[0].sourceId == id then Some(0)
    else match FindBySource(paths[1..], id)
      case None => None
      case Some(k) => Some(k + 1)
  }
}
