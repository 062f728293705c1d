/** The LSD 070-TFT 800x480 DRM panel driver: a panel object with two
    lifecycle flags, a static descriptor of its single timing, and the
    device-tree lookup that selects that descriptor.

    Calls into the regulator, backlight and timer subsystems are recorded,
    in order, as events of a ghost trace kept by the panel. Whether a DRM
    mode allocation succeeds is an input. */
module LsdPanel {
  import opened KernelTypes

  // ---------------------------------------------------------------------
  // Constants of the kernel headers the driver uses
  // ---------------------------------------------------------------------

  /** linux/backlight.h: the "framebuffer blanked" bit of props.state (1 << 1). */
  const BL_CORE_FBBLANK: bv32 := 2
  /** linux/fb.h: props.power values. */
  const FB_BLANK_UNBLANK: int := 0
  const FB_BLANK_POWERDOWN: int := 4
  /** drm/drm_modes.h: bits of drm_display_mode.type. */
  const DRM_MODE_TYPE_PREFERRED: bv32 := 8
  const DRM_MODE_TYPE_DRIVER: bv32 := 64
  /** linux/media-bus-format.h. */
  const MEDIA_BUS_FMT_RGB888_1X24: bv32 := 0x100a
  /** The settling delay the panel datasheet asks for, in milliseconds. */
  const SETTLE_MS: nat := 100

  // ---------------------------------------------------------------------
  // Static descriptor
  // ---------------------------------------------------------------------

  /** One (min, typ, max) field of a display_timing. */
  datatype TimingEntry = TimingEntry(min: nat, typ: nat, max: nat)

  /** struct display_timing. */
  datatype DisplayTiming = DisplayTiming(
    pixelclock: TimingEntry,
    hactive: TimingEntry, hfrontPorch: TimingEntry, hbackPorch: TimingEntry, hsyncLen: TimingEntry,
    vactive: TimingEntry, vfrontPorch: TimingEntry, vbackPorch: TimingEntry, vsyncLen: TimingEntry,
    flags: bv32)

  /** The fields of struct drm_display_mode a fixed mode table supplies;
      modeType is its `type` bit set. */
  datatype DisplayMode = DisplayMode(
    clock: nat,
    hdisplay: nat, hsyncStart: nat, hsyncEnd: nat, htotal: nat,
    vdisplay: nat, vsyncStart: nat, vsyncEnd: nat, vtotal: nat,
    vrefresh: nat, flags: bv32, modeType: bv32)

  /** struct lsd_panel_desc; num_modes and num_timings are the lengths of
      the two tables. */
  datatype PanelDesc = PanelDesc(
    modes: seq<DisplayMode>,
    timings: seq<DisplayTiming>,
    bpc: nat,
    width: nat,
    height: nat,
    busFormat: bv32,
    busFlags: bv32)

  /** A timing whose min, typ and max agree. */
  function Fixed(x: nat): TimingEntry {
    TimingEntry(x, x, x)
  }

  /** lsd_070tft_timing, with the fields that are live in the source. */
  const LSD_070TFT_TIMING: DisplayTiming :=
    DisplayTiming(Fixed(33000000),
                  Fixed(800), Fixed(210), Fixed(46), Fixed(1),
                  Fixed(480), Fixed(23), Fixed(22), Fixed(20),
                  0)

  /** lsd_070tft: one timing, no fixed modes, 6 bits per colour,
      154 mm x 86 mm, RGB888 bus format, no bus flags. */
  const LSD_070TFT: PanelDesc :=
    PanelDesc([], [LSD_070TFT_TIMING], 6, 154, 86, MEDIA_BUS_FMT_RGB888_1X24, 0)

  // ---------------------------------------------------------------------
  // Device-tree match table and probe
  // ---------------------------------------------------------------------

  /** One entry of an of_device_id table; the sentinel is the end of the sequence. */
  datatype OfDeviceId = OfDeviceId(compatible: string, data: PanelDesc)

  /** platform_of_match. */
  const PLATFORM_OF_MATCH: seq<OfDeviceId> := [OfDeviceId("lsd,070tft", LSD_070TFT)]

  /** The kernel's tolower on one byte of a string (a char below 256): the
      upper-case letters of lib/ctype.c, ASCII 'A'..'Z' and Latin-1
      0xC0..0xDE except 0xD7, move up by 0x20; every other byte is kept. */
  function ToLower(c: char): (r: char)
    ensures ('A' <= c <= 'Z') ==> r as int == c as int + 32
    ensures (0xC0 <= c as int <= 0xDE && c as int != 0xD7) ==> r as int == c as int + 32
    ensures !('A' <= c <= 'Z') && !(0xC0 <= c as int <= 0xDE && c as int != 0xD7) ==> r == c
  {
    if 'A' <= c <= 'Z' || (0xC0 <= c as int <= 0xDE && c as int != 0xD7)
    then (c as int + 32) as char
    else c
  }

  /** A string with every byte passed through ToLower. */
  function Fold(s: string): (r: string)
    ensures |r| == |s|
    ensures forall i :: 0 <= i < |s| ==> r[i] == ToLower(s[i])
  {
    if s == [] then [] else [ToLower(s[0])] + Fold(s[1..])
  }

  /** of_compat_cmp, which is strcasecmp: equal after case folding. */
  predicate CompatEqual(a: string, b: string) {
    Fold(a) == Fold(b)
  }

  /** The device node lists a compatible string equal, ignoring case, to compat. */
  predicate NodeLists(nodeCompatible: seq<string>, compat: string) {
    exists s :: s in nodeCompatible && CompatEqual(s, compat)
  }

  /** The index of the first table entry whose compatible string the device
      node lists, compared ignoring case, or None (a node with no compatible
      strings matches nothing). */
  function OfMatchNode(table: seq<OfDeviceId>, nodeCompatible: seq<string>): (r: Option<nat>)
    ensures r.Some? ==> r.value < |table| && NodeLists(nodeCompatible, table[r.value].compatible)
    ensures r.Some? ==> forall j :: 0 <= j < r.value ==> !NodeLists(nodeCompatible, table[j].compatible)
    ensures r.None? ==> forall j :: 0 <= j < |table| ==> !NodeLists(nodeCompatible, table[j].compatible)
    decreases |table|
  {
    if |table| == 0 then None
    else if NodeLists(nodeCompatible, table[0].compatible) then Some(0)
    else match OfMatchNode(table[1..], nodeCompatible)
      case None => None
      case Some(k) => Some(k + 1)
  }

  /** The driver's table matches exactly the nodes that list "lsd,070tft" in
      any mix of case, and selects the lsd_070tft descriptor. */
  lemma PlatformMatch(nodeCompatible: seq<string>)
    ensures OfMatchNode(PLATFORM_OF_MATCH, nodeCompatible).Some? <==>
              exists s :: s in nodeCompatible && Fold(s) == "lsd,070tft"
    ensures OfMatchNode(PLATFORM_OF_MATCH, nodeCompatible).Some? ==>
              PLATFORM_OF_MATCH[OfMatchNode(PLATFORM_OF_MATCH, nodeCompatible).value].data == LSD_070TFT
  {
    FoldLsd070tft();
  }

  /** The table's compatible string is already in lower case. */
  lemma FoldLsd070tft()
    ensures Fold("lsd,070tft") == "lsd,070tft"
  {
    var t := "lsd,070tft";
    assert forall i :: 0 <= i < |t| ==> ToLower(t[i]) == t[i];
  }

  /** The upper-case spelling folds to the table's compatible string. */
  lemma FoldLsd070tftUpper()
    ensures Fold("LSD,070TFT") == "lsd,070tft"
  {
  }

  /** A node that lists the string in upper case is matched too. */
  lemma PlatformMatchIgnoresCase()
    ensures OfMatchNode(PLATFORM_OF_MATCH, ["LSD,070TFT"]) == Some(0)
  {
    var node := ["LSD,070TFT"];
    FoldLsd070tft();
    FoldLsd070tftUpper();
    assert PLATFORM_OF_MATCH[0].compatible == "lsd,070tft";
    assert CompatEqual(node[0], "lsd,070tft") && node[0] in node;
    assert NodeLists(node, PLATFORM_OF_MATCH[0].compatible);
    assert |PLATFORM_OF_MATCH| == 1;
  }

  /** lsd_panel_platform_probe followed by the flag initialisation of
      lsd_panel_probe: -ENODEV when no entry matches, otherwise a new panel,
      neither prepared nor enabled, bound to the matched descriptor. */
  method PlatformProbe(nodeCompatible: seq<string>) returns (err: int, panel: Panel?)
    ensures OfMatchNode(PLATFORM_OF_MATCH, nodeCompatible).None? ==> err == -ENODEV && panel == null
    ensures OfMatchNode(PLATFORM_OF_MATCH, nodeCompatible).Some? ==>
              err == 0 && panel != null && fresh(panel) &&
              !panel.prepared && !panel.enabled && panel.backlight == null && panel.trace == [] &&
              panel.desc == Some(PLATFORM_OF_MATCH[OfMatchNode(PLATFORM_OF_MATCH, nodeCompatible).value].data)
  {
    var id := OfMatchNode(PLATFORM_OF_MATCH, nodeCompatible);
    if id.None? {
      return -ENODEV, null;
    }
    panel := new Panel(Some(PLATFORM_OF_MATCH[id.value].data), null);
    err := 0;
  }

  // ---------------------------------------------------------------------
  // Backlight bits
  // ---------------------------------------------------------------------

  /** props.state with the blanked bit cleared: that bit is 0 and every
      other bit is as before. */
  function Unblank(state: bv32): (r: bv32)
    ensures r & BL_CORE_FBBLANK == 0
    ensures r | BL_CORE_FBBLANK == state | BL_CORE_FBBLANK
  {
    state & !BL_CORE_FBBLANK
  }

  /** props.state with the blanked bit set: that bit is 1 and every other
      bit is as before. */
  function Blank(state: bv32): (r: bv32)
    ensures r & BL_CORE_FBBLANK == BL_CORE_FBBLANK
    ensures r & !BL_CORE_FBBLANK == state & !BL_CORE_FBBLANK
  {
    state | BL_CORE_FBBLANK
  }

  // ---------------------------------------------------------------------
  // Lifecycle, on values
  // ---------------------------------------------------------------------

  datatype Supply = Dvdd | Avdd

  /** The properties a backlight_update_status call publishes. */
  datatype BacklightProps = BacklightProps(state: bv32, power: int)

  /** Hardware-facing calls the panel makes. */
  datatype PanelEvent =
    | RegulatorDisable(supply: Supply)
    | Sleep(ms: nat)
    | BacklightUpdateStatus(props: BacklightProps)

  /** What a lifecycle call can observe or change: the two flags, the
      backlight's properties when there is a backlight, and the trace. */
  datatype PanelView = PanelView(
    prepared: bool,
    enabled: bool,
    backlight: Option<BacklightProps>,
    trace: seq<PanelEvent>)

  /** lsd_panel_prepare as written: the regulator enables are disabled in
      this snapshot, so only the settling delay remains and the call cannot fail. */
  function AfterPrepare(v: PanelView): (w: PanelView)
    ensures w.prepared
    ensures w.enabled == v.enabled && w.backlight == v.backlight
    ensures v.prepared ==> w == v
    ensures !v.prepared ==> w.trace == v.trace + [Sleep(SETTLE_MS)]
  {
    if v.prepared then v
    else v.(prepared := true, trace := v.trace + [Sleep(SETTLE_MS)])
  }

  /** lsd_panel_unprepare: avdd is disabled, then the delay, then dvdd. */
  function AfterUnprepare(v: PanelView): (w: PanelView)
    ensures !w.prepared
    ensures w.enabled == v.enabled && w.backlight == v.backlight
    ensures !v.prepared ==> w == v
    ensures v.prepared ==>
              w.trace == v.trace + [RegulatorDisable(Avdd), Sleep(SETTLE_MS), RegulatorDisable(Dvdd)]
  {
    if !v.prepared then v
    else v.(prepared := false,
            trace := v.trace + [RegulatorDisable(Avdd), Sleep(SETTLE_MS), RegulatorDisable(Dvdd)])
  }

  /** lsd_panel_enable: unblank the backlight, if any, and publish it once. */
  function AfterEnable(v: PanelView): (w: PanelView)
    ensures w.enabled && w.prepared == v.prepared
    ensures v.enabled ==> w == v
    ensures w.backlight.Some? <==> v.backlight.Some?
    ensures !v.enabled && v.backlight.None? ==> w.trace == v.trace
    ensures !v.enabled && v.backlight.Some? ==>
              w.backlight.value == BacklightProps(Unblank(v.backlight.value.state), FB_BLANK_UNBLANK) &&
              w.trace == v.trace + [BacklightUpdateStatus(w.backlight.value)]
  {
    if v.enabled then v
    else match v.backlight
      case None => v.(enabled := true)
      case Some(p) =>
        var q := BacklightProps(Unblank(p.state), FB_BLANK_UNBLANK);
        v.(enabled := true, backlight := Some(q), trace := v.trace + [BacklightUpdateStatus(q)])
  }

  /** lsd_panel_disable: power the backlight down, if any, blank it and
      publish it once. */
  function AfterDisable(v: PanelView): (w: PanelView)
    ensures !w.enabled && w.prepared == v.prepared
    ensures !v.enabled ==> w == v
    ensures w.backlight.Some? <==> v.backlight.Some?
    ensures v.enabled && v.backlight.None? ==> w.trace == v.trace
    ensures v.enabled && v.backlight.Some? ==>
              w.backlight.value == BacklightProps(Blank(v.backlight.value.state), FB_BLANK_POWERDOWN) &&
              w.trace == v.trace + [BacklightUpdateStatus(w.backlight.value)]
  {
    if !v.enabled then v
    else match v.backlight
      case None => v.(enabled := false)
      case Some(p) =>
        var q := BacklightProps(Blank(p.state), FB_BLANK_POWERDOWN);
        v.(enabled := false, backlight := Some(q), trace := v.trace + [BacklightUpdateStatus(q)])
  }

  /** A second prepare, unprepare, enable or disable in a row changes nothing. */
  lemma LifecycleIdempotent(v: PanelView)
    ensures AfterPrepare(AfterPrepare(v)) == AfterPrepare(v)
    ensures AfterUnprepare(AfterUnprepare(v)) == AfterUnprepare(v)
    ensures AfterEnable(AfterEnable(v)) == AfterEnable(v)
    ensures AfterDisable(AfterDisable(v)) == AfterDisable(v)
  {
  }

  /** prepare then unprepare from an unprepared panel restores the flag. In
      this snapshot the pair enables no regulator and disables both, avdd first. */
  lemma PrepareThenUnprepare(v: PanelView)
    requires !v.prepared
    ensures AfterUnprepare(AfterPrepare(v)).prepared == v.prepared
    ensures AfterUnprepare(AfterPrepare(v)).enabled == v.enabled
    ensures AfterUnprepare(AfterPrepare(v)).trace ==
              v.trace + [Sleep(SETTLE_MS), RegulatorDisable(Avdd), Sleep(SETTLE_MS), RegulatorDisable(Dvdd)]
  {
  }

  /** enable then disable of a disabled panel with a backlight leaves the
      backlight blanked and powered down, with its other state bits as they
      were, after publishing the unblanked and then the blanked props. */
  lemma EnableThenDisable(v: PanelView)
    requires !v.enabled && v.backlight.Some?
    ensures AfterDisable(AfterEnable(v)).backlight ==
              Some(BacklightProps(Blank(v.backlight.value.state), FB_BLANK_POWERDOWN))
    ensures !AfterDisable(AfterEnable(v)).enabled
    ensures AfterDisable(AfterEnable(v)).trace ==
              v.trace + [BacklightUpdateStatus(BacklightProps(Unblank(v.backlight.value.state), FB_BLANK_UNBLANK)),
                         BacklightUpdateStatus(BacklightProps(Blank(v.backlight.value.state), FB_BLANK_POWERDOWN))]
  {
    var s := v.backlight.value.state;
    assert AfterEnable(v).backlight == Some(BacklightProps(Unblank(s), FB_BLANK_UNBLANK));
    assert Blank(Unblank(s)) == Blank(s);
  }

  /** "enabled implies prepared" is not checked by the driver; it holds as long
      as the caller enables only a prepared panel and unprepares only a
      disabled one. */
  predicate EnabledImpliesPrepared(v: PanelView) {
    v.enabled ==> v.prepared
  }

  lemma CallerOrderKeepsEnabledImpliesPrepared(v: PanelView)
    requires EnabledImpliesPrepared(v)
    ensures EnabledImpliesPrepared(AfterPrepare(v))
    ensures EnabledImpliesPrepared(AfterDisable(v))
    ensures v.prepared ==> EnabledImpliesPrepared(AfterEnable(v))
    ensures !v.enabled ==> EnabledImpliesPrepared(AfterUnprepare(v))
  {
  }

  /** The driver itself does not keep it: unprepare of an enabled panel breaks it. */
  lemma UnprepareOfEnabledPanel(v: PanelView)
    requires v.prepared && v.enabled
    ensures !EnabledImpliesPrepared(AfterUnprepare(v))
  {
  }

  // ---------------------------------------------------------------------
  // Modes and display info, on values
  // ---------------------------------------------------------------------

  /** Where a probed mode came from; the conversion from a timing and the
      copy of a table mode are foreign and kept opaque. */
  datatype ModeOrigin = FromTiming(timing: DisplayTiming) | FromTable(mode: DisplayMode)

  /** A mode added to the connector's probed list, with its type bits. */
  datatype ProbedMode = ProbedMode(origin: ModeOrigin, modeType: bv32)

  /** The fields of the connector's drm_display_info that get_modes writes. */
  datatype DisplayInfo = DisplayInfo(
    bpc: nat,
    widthMm: nat,
    heightMm: nat,
    busFormats: seq<bv32>,
    busFlags: bv32)

  /** The type bits of a mode after get_modes marks it: DRIVER always, and
      PREFERRED when its table has a single entry; its other bits are kept. */
  function MarkMode(t: bv32, single: bool): (r: bv32)
    ensures r & DRM_MODE_TYPE_DRIVER != 0
    ensures r & DRM_MODE_TYPE_PREFERRED != 0 <==> single || t & DRM_MODE_TYPE_PREFERRED != 0
    ensures r & !(DRM_MODE_TYPE_DRIVER | DRM_MODE_TYPE_PREFERRED) == t & !(DRM_MODE_TYPE_DRIVER | DRM_MODE_TYPE_PREFERRED)
  {
    var u := t | DRM_MODE_TYPE_DRIVER;
    if single then u | DRM_MODE_TYPE_PREFERRED else u
  }

  /** The mode built from timing i: drm_mode_create returns a zeroed mode,
      so its type bits start at 0. */
  function ModeFromTiming(d: PanelDesc, i: nat): (m: ProbedMode)
    requires i < |d.timings|
    ensures m.origin == FromTiming(d.timings[i])
    ensures m.modeType & DRM_MODE_TYPE_DRIVER != 0
    ensures m.modeType & DRM_MODE_TYPE_PREFERRED != 0 <==> |d.timings| == 1
  {
    ProbedMode(FromTiming(d.timings[i]), MarkMode(0, |d.timings| == 1))
  }

  /** The mode duplicated from table entry i: it starts with that entry's
      own type bits. */
  function ModeFromTable(d: PanelDesc, i: nat): (m: ProbedMode)
    requires i < |d.modes|
    ensures m.origin == FromTable(d.modes[i])
    ensures m.modeType & DRM_MODE_TYPE_DRIVER != 0
    ensures m.modeType & DRM_MODE_TYPE_PREFERRED != 0 <==>
              |d.modes| == 1 || d.modes[i].modeType & DRM_MODE_TYPE_PREFERRED != 0
  {
    ProbedMode(FromTable(d.modes[i]), MarkMode(d.modes[i].modeType, |d.modes| == 1))
  }

  /** The modes the first loop adds for timings 0 .. i-1, given which
      allocations succeed: at most one per timing, and only for a timing
      whose allocation succeeded. */
  function TimingModes(d: PanelDesc, alloc: seq<bool>, i: nat): (r: seq<ProbedMode>)
    requires |alloc| == |d.timings| && i <= |alloc|
    ensures |r| <= i
    ensures forall m :: m in r ==> exists j :: 0 <= j < i && alloc[j] && m == ModeFromTiming(d, j)
    decreases i
  {
    if i == 0 then []
    else TimingModes(d, alloc, i - 1) + (if alloc[i - 1] then [ModeFromTiming(d, i - 1)] else [])
  }

  /** The modes the second loop adds for table modes 0 .. i-1: at most one
      per entry, and only for an entry whose duplication succeeded. */
  function TableModes(d: PanelDesc, alloc: seq<bool>, i: nat): (r: seq<ProbedMode>)
    requires |alloc| == |d.modes| && i <= |alloc|
    ensures |r| <= i
    ensures forall m :: m in r ==> exists j :: 0 <= j < i && alloc[j] && m == ModeFromTable(d, j)
    decreases i
  {
    if i == 0 then []
    else TableModes(d, alloc, i - 1) + (if alloc[i - 1] then [ModeFromTable(d, i - 1)] else [])
  }

  /** Every mode lsd_panel_get_fixed_modes adds, in the order it adds them:
      the timing modes first, then the table modes, each one for an entry
      whose allocation succeeded. */
  function FixedModes(d: PanelDesc, timingAlloc: seq<bool>, modeAlloc: seq<bool>): (r: seq<ProbedMode>)
    requires |timingAlloc| == |d.timings| && |modeAlloc| == |d.modes|
    ensures |r| <= |d.timings| + |d.modes|
    ensures forall m :: m in r ==>
              (exists j :: 0 <= j < |timingAlloc| && timingAlloc[j] && m == ModeFromTiming(d, j)) ||
              (exists j :: 0 <= j < |modeAlloc| && modeAlloc[j] && m == ModeFromTable(d, j))
  {
    TimingModes(d, timingAlloc, |timingAlloc|) + TableModes(d, modeAlloc, |modeAlloc|)
  }

  /** How many of the first i allocations succeed; all i exactly when none fails. */
  function Successes(alloc: seq<bool>, i: nat): (n: nat)
    requires i <= |alloc|
    ensures n <= i
    ensures n == i <==> forall j :: 0 <= j < i ==> alloc[j]
    decreases i
  {
    if i == 0 then 0 else Successes(alloc, i - 1) + (if alloc[i - 1] then 1 else 0)
  }

  /** The display info after get_modes: bpc, size and bus flags copied
      always; the bus format list replaced only for a non-zero format. */
  function FixedDisplayInfo(d: PanelDesc, info: DisplayInfo): (r: DisplayInfo)
    ensures r.bpc == d.bpc && r.widthMm == d.width && r.heightMm == d.height
    ensures r.busFlags == d.busFlags
    ensures d.busFormat != 0 ==> r.busFormats == [d.busFormat]
    ensures d.busFormat == 0 ==> r.busFormats == info.busFormats
  {
    var i := info.(bpc := d.bpc, widthMm := d.width, heightMm := d.height);
    var j := if d.busFormat != 0 then i.(busFormats := [d.busFormat]) else i;
    j.(busFlags := d.busFlags)
  }

  lemma {:induction false} TimingModesCount(d: PanelDesc, alloc: seq<bool>, i: nat)
    requires |alloc| == |d.timings| && i <= |alloc|
    ensures |TimingModes(d, alloc, i)| == Successes(alloc, i)
    decreases i
  {
    if i > 0 {
      TimingModesCount(d, alloc, i - 1);
    }
  }

  lemma {:induction false} TableModesCount(d: PanelDesc, alloc: seq<bool>, i: nat)
    requires |alloc| == |d.modes| && i <= |alloc|
    ensures |TableModes(d, alloc, i)| == Successes(alloc, i)
    decreases i
  {
    if i > 0 {
      TableModesCount(d, alloc, i - 1);
    }
  }

  /** get_modes returns the number of successful allocations: at most
      num_timings + num_modes, and exactly that when none fails. */
  lemma FixedModesCount(d: PanelDesc, timingAlloc: seq<bool>, modeAlloc: seq<bool>)
    requires |timingAlloc| == |d.timings| && |modeAlloc| == |d.modes|
    ensures |FixedModes(d, timingAlloc, modeAlloc)| ==
              Successes(timingAlloc, |timingAlloc|) + Successes(modeAlloc, |modeAlloc|)
    ensures |FixedModes(d, timingAlloc, modeAlloc)| <= |d.timings| + |d.modes|
    ensures (forall j :: 0 <= j < |timingAlloc| ==> timingAlloc[j]) &&
            (forall j :: 0 <= j < |modeAlloc| ==> modeAlloc[j]) ==>
              |FixedModes(d, timingAlloc, modeAlloc)| == |d.timings| + |d.modes|
  {
    TimingModesCount(d, timingAlloc, |timingAlloc|);
    TableModesCount(d, modeAlloc, |modeAlloc|);
  }

  lemma {:induction false} TimingModesKeepSuccesses(d: PanelDesc, alloc: seq<bool>, i: nat)
    requires |alloc| == |d.timings| && i <= |alloc|
    ensures forall j :: 0 <= j < i && alloc[j] ==> ModeFromTiming(d, j) in TimingModes(d, alloc, i)
    decreases i
  {
    if i > 0 {
      TimingModesKeepSuccesses(d, alloc, i - 1);
    }
  }

  lemma {:induction false} TableModesKeepSuccesses(d: PanelDesc, alloc: seq<bool>, i: nat)
    requires |alloc| == |d.modes| && i <= |alloc|
    ensures forall j :: 0 <= j < i && alloc[j] ==> ModeFromTable(d, j) in TableModes(d, alloc, i)
    decreases i
  {
    if i > 0 {
      TableModesKeepSuccesses(d, alloc, i - 1);
    }
  }

  /** A failed allocation does not stop the loops: every entry whose
      allocation succeeds, before or after a failure, is added. */
  lemma FixedModesKeepSuccesses(d: PanelDesc, timingAlloc: seq<bool>, modeAlloc: seq<bool>)
    requires |timingAlloc| == |d.timings| && |modeAlloc| == |d.modes|
    ensures forall j :: 0 <= j < |timingAlloc| && timingAlloc[j] ==>
              ModeFromTiming(d, j) in FixedModes(d, timingAlloc, modeAlloc)
    ensures forall j :: 0 <= j < |modeAlloc| && modeAlloc[j] ==>
              ModeFromTable(d, j) in FixedModes(d, timingAlloc, modeAlloc)
  {
    TimingModesKeepSuccesses(d, timingAlloc, |timingAlloc|);
    TableModesKeepSuccesses(d, modeAlloc, |modeAlloc|);
  }

  lemma {:induction false} TimingModesFlags(d: PanelDesc, alloc: seq<bool>, i: nat)
    requires |alloc| == |d.timings| && i <= |alloc|
    ensures forall m :: m in TimingModes(d, alloc, i) ==>
              m.origin.FromTiming? && m.origin.timing in d.timings &&
              m.modeType & DRM_MODE_TYPE_DRIVER != 0 &&
              (m.modeType & DRM_MODE_TYPE_PREFERRED != 0 <==> |d.timings| == 1)
    decreases i
  {
    if i > 0 {
      TimingModesFlags(d, alloc, i - 1);
    }
  }

  lemma {:induction false} TableModesFlags(d: PanelDesc, alloc: seq<bool>, i: nat)
    requires |alloc| == |d.modes| && i <= |alloc|
    ensures forall m :: m in TableModes(d, alloc, i) ==>
              m.origin.FromTable? && m.origin.mode in d.modes &&
              m.modeType & DRM_MODE_TYPE_DRIVER != 0 &&
              (m.modeType & DRM_MODE_TYPE_PREFERRED != 0 <==>
                 |d.modes| == 1 || m.origin.mode.modeType & DRM_MODE_TYPE_PREFERRED != 0)
    decreases i
  {
    if i > 0 {
      TableModesFlags(d, alloc, i - 1);
    }
  }

  /** Every added mode carries DRIVER. One built from a timing carries
      PREFERRED exactly when the timing table has one entry; one copied from
      the mode table carries it exactly when that table has one entry or the
      table mode was already marked preferred. */
  lemma FixedModesFlags(d: PanelDesc, timingAlloc: seq<bool>, modeAlloc: seq<bool>)
    requires |timingAlloc| == |d.timings| && |modeAlloc| == |d.modes|
    ensures forall m :: m in FixedModes(d, timingAlloc, modeAlloc) ==>
              m.modeType & DRM_MODE_TYPE_DRIVER != 0
    ensures forall m :: m in FixedModes(d, timingAlloc, modeAlloc) && m.origin.FromTiming? ==>
              m.origin.timing in d.timings &&
              (m.modeType & DRM_MODE_TYPE_PREFERRED != 0 <==> |d.timings| == 1)
    ensures forall m :: m in FixedModes(d, timingAlloc, modeAlloc) && m.origin.FromTable? ==>
              m.origin.mode in d.modes &&
              (m.modeType & DRM_MODE_TYPE_PREFERRED != 0 <==>
                 |d.modes| == 1 || m.origin.mode.modeType & DRM_MODE_TYPE_PREFERRED != 0)
  {
    TimingModesFlags(d, timingAlloc, |timingAlloc|);
    TableModesFlags(d, modeAlloc, |modeAlloc|);
  }

  /** The shipped descriptor yields one mode, marked DRIVER and PREFERRED,
      when its allocation succeeds, and none when it fails. */
  lemma Lsd070tftModes(info: DisplayInfo)
    ensures FixedModes(LSD_070TFT, [true], []) ==
              [ProbedMode(FromTiming(LSD_070TFT_TIMING), DRM_MODE_TYPE_DRIVER | DRM_MODE_TYPE_PREFERRED)]
    ensures FixedModes(LSD_070TFT, [false], []) == []
    ensures FixedDisplayInfo(LSD_070TFT, info) ==
              DisplayInfo(6, 154, 86, [MEDIA_BUS_FMT_RGB888_1X24], 0)
  {
  }

  // ---------------------------------------------------------------------
  // get_timings
  // ---------------------------------------------------------------------

  function Min(a: nat, b: nat): nat {
    if a < b then a else b
  }

  /** A caller buffer after its first k slots are overwritten with the first
      k timings: those slots equal the timings, the rest are untouched. */
  function CopyPrefix(buffer: seq<DisplayTiming>, timings: seq<DisplayTiming>, k: nat): (r: seq<DisplayTiming>)
    requires k <= |buffer| && k <= |timings|
    ensures |r| == |buffer|
    ensures forall i :: 0 <= i < k ==> r[i] == timings[i]
    ensures forall i :: k <= i < |buffer| ==> r[i] == buffer[i]
  {
    timings[..k] + buffer[k..]
  }

  // ---------------------------------------------------------------------
  // Objects
  // ---------------------------------------------------------------------

  /** The backlight device's props the panel edits. */
  class Backlight {
    var state: bv32
    var power: int
  }

  /** The parts of a drm_connector that get_modes writes. */
  class Connector {
    var probedModes: seq<ProbedMode>
    var displayInfo: DisplayInfo
  }

  /** struct lsd_panel. The descriptor and backlight are set once at probe. */
  class Panel {
    var prepared: bool
    var enabled: bool
    const desc: Option<PanelDesc>
    const backlight: Backlight?
    ghost var trace: seq<PanelEvent>

    ghost function View(): PanelView
      reads this, backlight
    {
      PanelView(prepared, enabled,
                if backlight == null then None else Some(BacklightProps(backlight.state, backlight.power)),
                trace)
    }

    /** lsd_panel_probe's initialisation: both flags false. */
    constructor (desc: Option<PanelDesc>, backlight: Backlight?)
      ensures !prepared && !enabled && trace == []
      ensures this.desc == desc && this.backlight == backlight
    {
      prepared := false;
      enabled := false;
      this.desc := desc;
      this.backlight := backlight;
      trace := [];
    }

    method Prepare() returns (r: int)
      modifies this
      ensures r == 0
      ensures View() == AfterPrepare(old(View()))
    {
      if prepared {
        return 0;
      }
      trace := trace + [Sleep(SETTLE_MS)];
      prepared := true;
      return 0;
    }

    method Unprepare() returns (r: int)
      modifies this
      ensures r == 0
      ensures View() == AfterUnprepare(old(View()))
    {
      if !prepared {
        return 0;
      }
      trace := trace + [RegulatorDisable(Avdd)];
      trace := trace + [Sleep(SETTLE_MS)];
      trace := trace + [RegulatorDisable(Dvdd)];
      prepared := false;
      return 0;
    }

    method Enable() returns (r: int)
      modifies this, backlight
      ensures r == 0
      ensures View() == AfterEnable(old(View()))
    {
      if enabled {
        return 0;
      }
      if backlight != null {
        backlight.state := Unblank(backlight.state);
        backlight.power := FB_BLANK_UNBLANK;
        trace := trace + [BacklightUpdateStatus(BacklightProps(backlight.state, backlight.power))];
      }
      enabled := true;
      return 0;
    }

    method Disable() returns (r: int)
      modifies this, backlight
      ensures r == 0
      ensures View() == AfterDisable(old(View()))
    {
      if !enabled {
        return 0;
      }
      if backlight != null {
        backlight.power := FB_BLANK_POWERDOWN;
        backlight.state := Blank(backlight.state);
        trace := trace + [BacklightUpdateStatus(BacklightProps(backlight.state, backlight.power))];
      }
      enabled := false;
      return 0;
    }

    /** lsd_panel_get_fixed_modes (and lsd_panel_get_modes, which forwards to
        it). timingAlloc[i] and modeAlloc[i] say whether the mode for timing i
        and table mode i could be allocated. */
    method GetFixedModes(connector: Connector, timingAlloc: seq<bool>, modeAlloc: seq<bool>) returns (num: nat)
      requires desc.Some? ==> |timingAlloc| == |desc.value.timings| && |modeAlloc| == |desc.value.modes|
      modifies connector
      ensures desc.None? ==> num == 0 && unchanged(connector)
      ensures desc.Some? ==>
                num == |FixedModes(desc.value, timingAlloc, modeAlloc)| &&
                connector.probedModes == old(connector.probedModes) + FixedModes(desc.value, timingAlloc, modeAlloc) &&
                connector.displayInfo == FixedDisplayInfo(desc.value, old(connector.displayInfo))
    {
      if desc.None? {
        return 0;
      }
      var d := desc.value;
      num := 0;

      var i := 0;
      while i < |d.timings|
        invariant 0 <= i <= |d.timings|
        invariant connector.probedModes == old(connector.probedModes) + TimingModes(d, timingAlloc, i)
        invariant num == |TimingModes(d, timingAlloc, i)|
        invariant connector.displayInfo == old(connector.displayInfo)
      {
        if !timingAlloc[i] {
          i := i + 1;
          continue;
        }
        var mode := ProbedMode(FromTiming(d.timings[i]), 0);
        mode := mode.(modeType := MarkMode(mode.modeType, |d.timings| == 1));
        connector.probedModes := connector.probedModes + [mode];
        num := num + 1;
        i := i + 1;
      }

      ghost var afterTimings := connector.probedModes;
      i := 0;
      while i < |d.modes|
        invariant 0 <= i <= |d.modes|
        invariant connector.probedModes == afterTimings + TableModes(d, modeAlloc, i)
        invariant num == |TimingModes(d, timingAlloc, |timingAlloc|)| + |TableModes(d, modeAlloc, i)|
        invariant connector.displayInfo == old(connector.displayInfo)
      {
        if !modeAlloc[i] {
          i := i + 1;
          continue;
        }
        var mode := ProbedMode(FromTable(d.modes[i]), d.modes[i].modeType);
        mode := mode.(modeType := MarkMode(mode.modeType, |d.modes| == 1));
        connector.probedModes := connector.probedModes + [mode];
        num := num + 1;
        i := i + 1;
      }

      connector.displayInfo := connector.displayInfo.(bpc := d.bpc);
      connector.displayInfo := connector.displayInfo.(widthMm := d.width);
      connector.displayInfo := connector.displayInfo.(heightMm := d.height);
      if d.busFormat != 0 {
        connector.displayInfo := connector.displayInfo.(busFormats := [d.busFormat]);
      }
      connector.displayInfo := connector.displayInfo.(busFlags := d.busFlags);
    }

    /** lsd_panel_get_timings: copies min(numTimings, total) timings into a
        non-null buffer and returns the total. */
    method GetTimings(numTimings: nat, timings: array?<DisplayTiming>) returns (total: nat)
      requires desc.Some?
      requires timings != null ==> Min(numTimings, |desc.value.timings|) <= timings.Length
      modifies timings
      ensures total == |desc.value.timings|
      ensures timings != null ==>
                timings[..] == CopyPrefix(old(timings[..]), desc.value.timings, Min(numTimings, total))
    {
      var d := desc.value;
      var n := numTimings;
      if |d.timings| < n {
        n := |d.timings|;
      }
      if timings != null {
        var i := 0;
        while i < n
          invariant 0 <= i <= n
          invariant forall k :: 0 <= k < i ==> timings[k] == d.timings[k]
          invariant forall k :: i <= k < timings.Length ==> timings[k] == old(timings[k])
        {
          timings[i] := d.timings[i];
          i := i + 1;
        }
        assert timings[..] == CopyPrefix(old(timings[..]), d.timings, n);
      }
      return |d.timings|;
    }
  }
}
