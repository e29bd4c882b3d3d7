# display-tuner: the display layer, in Dafny

This project models `src/display.rs` of display-tuner. That file is the layer of the
program that reads and changes the Windows display configuration through the CCD
(Connecting and Configuring Displays) API. It covers:

- listing the active displays: source id, friendly name, framebuffer size, and current
  and recommended DPI scaling;
- rendering one display as a line of text;
- applying a requested width, height and scaling to one display. Applying means
  re-querying the topology, changing the display's source mode in place and
  resubmitting it, then setting a DPI offset relative to the recommended scaling.

The model is split into modules:

- `Machine`: the Rust integer types and wrapping `usize` arithmetic. `usize` is
  64-bit, as on 64-bit Windows.
- `Outcomes`: how an operation ends. It is a value, an error (one per `bail!` site,
  with the OS status where there is one) or a panic (one per kind of panic site; the
  two path-lookup `unwrap`s share `PathNotFound`).
- `Catalog`: `DPI_VALUES` and the index arithmetic.
- `Text`: lossy UTF-16 decoding, the NUL trim and decimal formatting.
- `Os`: the CCD records and the OS as an oracle.
- `Display`: the snapshot, its rendering, the per-path lookups and
  `enumerate_displays`.
- `Apply`: `apply_display_config` and its two updates.
- `Scenarios`: concrete runs against a one-display OS.

How the OS is modelled:

- The OS is a datatype of functions, one per foreign call. Each reply depends on the
  `History`, which is the sequence of configuration commits made so far. This is how
  the re-query made after a resolution commit can see a changed topology.
- An update returns a `Run`: its outcome plus the commits it issued. A commit is
  recorded whenever a set call is made, whatever status the call returns.

Form of the model:

- The parts of the code that work step by step are methods over arrays:
  - `GetDisplayConfig` allocates the buffers at the sized lengths and lets the OS
    fill them;
  - `ScanPaths` and `ReadPath` are the `for` loop of `enumerate_displays`, with its
    `continue` skips and `?` exits;
  - `ApplyDisplayResolution` overwrites one record of the queried mode buffer in
    place and submits both buffers.
- Each method is proved equal to a function of the OS and the history
  (`Enumeration`, `ResolutionUpdate`, `ScalingUpdate`, `ConfigUpdate`). The
  properties are proved as lemmas about those functions.
- The pure parts are functions with lemmas: the DPI arithmetic, the catalog
  positions, the change test, the rendering and the name trim.

## Model

| member | source | states |
|---|---|---|
| Machine.WrappingSubAdd | src/display.rs:215-216 | subtracting with wrap-around what was added with wrap-around gives back the original `usize` |
| Machine.WrappingAddSigned | src/display.rs:215 | adding a sign-extended `i32` to a small `usize` gives the mathematical sum when it is non-negative, and a value of at least 2^64 - 2^31 otherwise |
| Machine.UnsignedAbs | src/display.rs:213 | `i32::unsigned_abs` as a `u32`; its use is stated by `Catalog.DpiIndicesExact` |
| Machine.I32AsUsize | src/display.rs:215-216 | `cur_scale_rel as usize`: sign extension modulo 2^64; its use is stated by `Catalog.DpiIndicesExact` |
| Machine.WrappingAdd | src/display.rs:215 | `usize::wrapping_add`; its laws are `Machine.WrappingSubAdd` and `Machine.WrappingAddSigned` |
| Machine.WrappingSub | src/display.rs:216 | `usize::wrapping_sub`; its law is `Machine.WrappingSubAdd` |
| Catalog.CatalogShape | src/display.rs:6 | the catalog has exactly 12 entries, strictly ascending |
| Catalog.Position | src/display.rs:282-290 | `position` returns the first index holding the value, and `None` exactly when the value is not in the list |
| Catalog.PositionInAscending | src/display.rs:282-290 | in a strictly ascending list, the position of the k-th entry is k |
| Catalog.PositionOfMember | src/display.rs:6 | for the catalog, position and indexing are inverse |
| Catalog.IndexOfPosition | src/display.rs:282-290 | every catalog member has a position, and indexing at it gives the member back |
| Catalog.DpiIndices | src/display.rs:213-216 | the current and recommended indices as the code computes them; their values are stated by `Catalog.DpiIndicesExact` |
| Catalog.ScalingFromOffsets | src/display.rs:213-222 | the checked current index, the unchecked recommended index and the two catalog reads; the outcomes are stated by `Catalog.ScalingFromOffsetsCases` |
| Catalog.DpiIndicesExact | src/display.rs:213-216 | under wrapping arithmetic the recommended index is exactly abs(min); the current index lies in the catalog iff 0 <= abs(min) + cur < 12, and it then equals that sum |
| Catalog.ScalingFromOffsetsCases | src/display.rs:213-222 | the three outcomes of the lookup: an out-of-range current index is the "DPI index out of range" error; abs(min) >= 12 with the current index in range is a panic; otherwise the result is (DPI_VALUES[abs(min) + cur], DPI_VALUES[abs(min)]) |
| Catalog.ScalingInCatalog | src/display.rs:218-219 | a successful lookup gives two catalog members |
| Catalog.RelativeOffset | src/display.rs:282-300 | the two `position(..).unwrap()` calls and the subtraction; the outcomes are stated by `Catalog.RelativeOffsetCases` |
| Catalog.RelativeOffsetCases | src/display.rs:282-300 | a recommended value not in the catalog panics first, then a target not in the catalog; otherwise the offset is target position minus recommended position, and stepping from the recommended position by it lands on the target |
| Catalog.RelativeOffsetOfMembers | src/display.rs:282-290 | the offset exists iff both values are catalog members, with the panic for each missing one |
| Catalog.RelativeOffsetBetweenMembers | src/display.rs:282-300 | the offset from the i-th to the j-th catalog entry is j - i |
| Catalog.RelativeOffsetExample | src/display.rs:282-300 | recommended 150 and target 175 give offset 1; target 120 panics |
| Text.TrimTrailing | src/display.rs:185 | `trim_end_matches`: the result is a prefix that does not end in the pad value, and everything cut off is padding |
| Text.TrimTrailingKeepsText | src/display.rs:184-186 | trimming a text that does not end in the pad value, followed by any run of padding, gives the text back |
| Text.DecodeUtf16Lossy | src/display.rs:184 | `String::from_utf16_lossy`: pairs, lone surrogates as U+FFFD, other units as themselves; never longer than the units |
| Text.DecodeAppendPlain | src/display.rs:184 | appending a non-surrogate unit appends its character to the decoding |
| Text.DecodeEndsInNul | src/display.rs:184-185 | a decoding ends in NUL only if the units end in a zero unit |
| Text.TrimCommutesWithDecode | src/display.rs:184-186 | decoding then trimming NUL characters is the same as trimming zero units then decoding |
| Text.FriendlyName | src/display.rs:184-186 | the name is the decoding of the buffer without its trailing zero units, and never ends in NUL |
| Text.NatToDecimal | src/display.rs:23-24 | `{}` of an unsigned number: at least one digit, all digits, and a leading `0` only in the one-digit rendering of 0 |
| Text.DecimalRoundTrip | src/display.rs:23-24 | reading the digits back gives the number |
| Text.IntToDecimal | src/display.rs:23-27 | `{}` of a signed number: the digits of its value with no leading zero (beyond a lone `0`), after a minus sign when it is negative |
| Os.QueriedTopologyBuffers | src/display.rs:136-157 | a successful query holds buffers of exactly the sized lengths: what the OS wrote, then default entries |
| Os.QueriedTopology | src/display.rs:125-159 | the sizing call, the query and their errors, as a value; what it holds is stated by `Os.QueriedTopologyBuffers` |
| Os.QueriedTopologyFails | src/display.rs:131-153 | the query fails iff the sizing or the query status is non-zero; a sizing failure carries its status in `BufferSizesFailed`, a query failure after successful sizing carries its status in `QueryFailed` |
| Os.GetDisplayConfig | src/display.rs:125-159 | fails exactly when the query function does, with its failure (which `Os.QueriedTopologyFails` ties to the two statuses); on success the fresh arrays hold the queried topology |
| Os.FindBySource | src/display.rs:241-244 | the first path whose source id matches; `None` iff no path matches |
| Display.RenderSuffixIff | src/display.rs:26-28 | the line ends in `%)` iff the recommended scaling differs from the current one, and in a bare `%` otherwise |
| Display.RenderIdReadBack | src/display.rs:23-24 | the line starts with `[id:`, then the decimal digits of the source id (which read back to it), then `]` |
| Display.Render | src/display.rs:18-31 | the `fmt` rendering; its shape is stated by `Display.RenderSuffixIff`, `Display.RenderIdReadBack` and `Display.RenderExample` |
| Display.RenderExample | src/display.rs:20-28 | the example in the source comment renders exactly as written, and without the suffix at the recommended scaling |
| Display.DisplayNameResult | src/display.rs:161-191 | the name lookup fails iff the device-info status is non-zero, with that status; otherwise it is the trimmed, decoded 64-unit buffer |
| Display.DisplayName | src/display.rs:161-191 | the name lookup as a value; stated by `Display.DisplayNameResult` |
| Display.DisplayScaling | src/display.rs:193-223 | the scaling lookup as a value; stated by `Display.DisplayScalingCases` |
| Display.DisplayScalingCases | src/display.rs:193-223 | a non-zero DPI query status is an error carrying it; otherwise the three catalog outcomes of the offsets; a success gives catalog members |
| Display.PathEntryCases | src/display.rs:62-94 | a path is skipped iff its mode index is the sentinel, out of bounds or not a source mode; it aborts iff a lookup fails (the name's failure first); otherwise its snapshot has the path's source id, the mode's size and the looked-up name and scalings |
| Display.PathEntry | src/display.rs:62-94 | one iteration of the enumeration loop as a value; stated by `Display.PathEntryCases` |
| Display.ShownIsFilter | src/display.rs:96 | the collected snapshots are those of the producing entries, in order, none missed |
| Display.EnumerationSucceedsIff | src/display.rs:57-99 | enumeration succeeds iff the query succeeds and every included path's lookups succeed; a query failure is the result |
| Display.EnumerationFailsAtFirst | src/display.rs:84-85 | the first failing included path fails the whole call with its own failure, and no partial list is returned |
| Display.EnumerationSelectsIncluded | src/display.rs:59-97 | on success: one snapshot per included path, in path order, at most as many as paths; each has its path's source id, its source mode's size, the name its name lookup gave and the (current, recommended) pair its scaling lookup gave, both catalog members |
| Display.Enumeration | src/display.rs:54-100 | `enumerate_displays` as a value; stated by the three `Enumeration` lemmas and met by `Display.EnumerateDisplays` |
| Display.ReadPath | src/display.rs:62-96 | one loop iteration equals the path's entry |
| Display.ScanPaths | src/display.rs:59-99 | the loop returns the first abort's failure, else all snapshots |
| Display.EnumerateDisplays | src/display.rs:54-100 | `enumerate_displays` equals the enumeration function |
| Apply.WithSourceSize | src/display.rs:249-250 | the write keeps the record's header and, for a source mode, its other fields; the two size words become the configured size |
| Apply.WithSourceSizeLaws | src/display.rs:249-250 | writing back the stored size changes nothing; a second write wins |
| Apply.ResolutionChanged | src/display.rs:106 | the size differs in width or height |
| Apply.ScalingChanged | src/display.rs:107 | the current scaling differs from the requested one |
| Apply.ResolutionUpdate | src/display.rs:225-266 | `apply_display_resolution` as a value; stated by `Apply.ResolutionUpdateCommit`, `Apply.ResolutionUpdateShape` and `Apply.ResolutionUpdateFailures` |
| Apply.ResolutionReachesCommit | src/display.rs:238-247 | the query succeeds, the path is found and its mode index lies inside the mode buffer |
| Apply.ResolutionUpdateCommit | src/display.rs:238-260 | a commit is made iff the query succeeded, found the path and its mode index is in bounds, and then exactly one. It carries the queried paths unchanged, the flags SDC_APPLY, SDC_USE_SUPPLIED_DISPLAY_CONFIG, and the modes changed only at the path's index, where the record is the size-only write of the new size (header and, for a source mode, pixel format and position kept). Success iff its status is 0, otherwise an error carrying the status |
| Apply.ResolutionUpdateShape | src/display.rs:252-260 | with no commit the update failed; a commit is one topology commit |
| Apply.ResolutionUpdateFailures | src/display.rs:238-247 | a failed query, a missing path (panic) and an out-of-bounds mode index (panic) each stop before any commit |
| Apply.ApplyDisplayResolution | src/display.rs:225-266 | the in-place update of the fresh mode buffer equals the resolution-update function |
| Apply.ScalingUpdate | src/display.rs:268-312 | `apply_display_scaling` as a value; stated by `Apply.ScalingUpdateCommit`, `Apply.ScalingUpdateShape` and `Apply.ScalingUpdateFailures` |
| Apply.ScalingReachesCommit | src/display.rs:273-290 | the query succeeds, the path is found, its fresh DPI reading succeeds and the target is a catalog member |
| Apply.ScalingUpdateReachesCommit | src/display.rs:273-303 | the DPI set call is made iff the query, the path lookup and the fresh DPI reading succeed and the target is in the catalog |
| Apply.ScalingUpdateSent | src/display.rs:279-306 | a DPI set that was made is the only commit, goes to the path's source adapter and the display's id, and its offset steps from index abs(min) to the target; success iff its status is 0 |
| Apply.ScalingUpdateCommit | src/display.rs:273-306 | a DPI set is made iff the query succeeded, found the path, its fresh DPI reading succeeded and the target is in the catalog, and then exactly one. It goes to the path's source adapter and the display's id, and abs(min) plus its offset is the catalog index of the target. Success iff its status is 0, otherwise an error carrying the status |
| Apply.ScalingUpdateShape | src/display.rs:303-306 | with no commit the update failed; a commit is one DPI commit |
| Apply.ScalingUpdateFailures | src/display.rs:273-290 | each stop before the set call with its exact outcome and no commit: a failed query or fresh DPI reading passes its failure on, a missing path panics, a target outside the catalog panics in `unwrap` once the reading succeeded (and in any case never reaches the OS); the recommended value's `unwrap` never panics |
| Apply.ApplyDisplayScaling | src/display.rs:268-312 | `apply_display_scaling` equals the scaling-update function |
| Apply.ConfigUpdate | src/display.rs:102-123 | `apply_display_config` as a value; stated by `Apply.ConfigUpdateNoopIff`, `Apply.ConfigUpdateOrder` and `Apply.ConfigUpdateSequencing` |
| Apply.ConfigUpdateNoopIff | src/display.rs:106-112 | the call succeeds with no commit iff the size and the scaling already match |
| Apply.ReapplyIsNoop | src/display.rs:106-112 | applying a display's own configuration does nothing |
| Apply.ConfigUpdateOrder | src/display.rs:114-120 | at most two commits; a topology commit only when the size changed, and first; a DPI commit only when the scaling changed, and last |
| Apply.ConfigUpdateSequencing | src/display.rs:114-122 | a size change whose resolution update fails, or that is the only change, gives exactly the resolution update's run; a failing resolution update ends the call with its failure and no DPI set; otherwise a scaling change runs against the history extended by the resolution commit, decides the outcome and is committed after it; without a scaling change no DPI is set |
| Apply.ApplyDisplayConfig | src/display.rs:102-123 | `apply_display_config` equals the configuration-update function |
| Scenarios.ListScenario | src/display.rs:54-100 | one path at 2560x1440 with offsets min -2, current -1 lists exactly one display named "DELL" at 125%, recommended 150% |
| Scenarios.ResolutionOnlyScenario | src/display.rs:102-123 | a size-only change makes exactly one topology commit, with the mode record at the new size |
| Scenarios.ScalingOnlyScenario | src/display.rs:102-123 | at 100% with 150% recommended, asking for 175% sets offset 1 and commits nothing else |
| Scenarios.UnsupportedScalingScenario | src/display.rs:287-290 | asking for 120% panics before any set call |
| Scenarios.VanishedDisplayScenario | src/display.rs:241-244 | a source id missing from the fresh query panics with no commit, for either update |
| Scenarios.ShortQueryKeepsBlankPath | src/display.rs:140-157 | when the OS reports fewer paths than it sized, the buffer keeps a zeroed path record, and the enumeration loop treats it as a display |

## Left out

- The foreign calls are oracles. The model takes their replies as given and knows
  nothing of how the OS computes them. The DPI get and set are the undocumented
  device-info types -3 and -4.
- The read-modify-write race is not modelled. Between an update's re-query and its
  commit, another process can change the topology. The model's replies depend only on
  this program's own commits.
- `tracing` output (`debug!`, `info!`) is not modelled, because it does not affect any
  result.
- The `u32::try_from(size_of::<…>())` header sizes and the `#[repr(C)]` layout are not
  modelled, because they are layout plumbing. A mode record's union is a tagged
  datatype. `Other` keeps the two payload words that the source-mode write overwrites.
- The query flag `QDC_ONLY_ACTIVE_PATHS` is not a parameter. The oracle answers for
  active paths only.
- The `i32::try_from` of the two catalog positions is not modelled: a position is
  below 12, so the conversion cannot fail.
- The maximum DPI offset the OS reports is read but never used by the code. It is
  kept in the reply record only.
- Enumeration and the DPI index: when abs(min) + cur falls outside the catalog, the
  code returns the "DPI index out of range" error, which aborts the whole listing. An
  out-of-catalog offset is therefore not a skipped path, and the model follows the
  code.
- Unsupported scaling: a requested or recommended percentage outside the catalog ends
  in an `unwrap` panic, not a returned error. The model follows the code and records a
  `Panic(TargetNotInCatalog)` or `Panic(RecommendedNotInCatalog)` outcome.
- Query counts: `QueryDisplayConfig` may lower the path and mode counts, but the
  vectors are never truncated to them. The model keeps the buffers at the sized
  lengths, with default records after what the OS wrote (see
  `Scenarios.ShortQueryKeepsBlankPath`).
- Display sizes are not assumed to be positive. The hardware-dependent tests expect
  them to be, but that is OS behaviour and holds no constraint here.
- `src/main.rs` (the command-line front end) and `tests/tests.rs` (tests that need
  real display hardware) are not part of this model.
