# LSD 800x480 panel and R-Car Gen2 USBHS PHY glue, modelled in Dafny

This project models two small Linux kernel drivers as sequential state
machines and proves their pre/post conditions and the order of their calls.

* `LsdPanel` (`lsd_panel.dfy`) models the DRM panel driver for the LSD
  070-TFT 800x480 LCD. A `Panel` object holds the two lifecycle flags
  `prepared` and `enabled`, its immutable descriptor and an optional
  `Backlight`. The four lifecycle calls are guarded flag transitions.
  `GetTimings` copies a prefix of the timing table into a caller array.
  `GetFixedModes` adds one probed mode per successful allocation to a
  `Connector`, then writes the connector's display info. The module also
  holds the descriptor constants and the `platform_of_match` lookup of probe.
* `UsbhsRcar2` (`usbhs_rcar2.dfy`) models the Renesas USBHS platform
  callbacks. A `UsbhsPriv` object holds `phy`, which is either `None` or a
  bound handle. `HardwareInit` binds it, `HardwareExit` releases it, and
  `PowerCtrl` sequences the PHY calls. `GetId` returns the gadget role.
* `KernelTypes` (`kernel_types.dfy`) holds an `Option` for nullable
  pointers, the errno values used, and `IS_ERR`'s range.

Hardware-facing calls are recorded as events, in call order, in a ghost
`trace` on the object:

* panel: `regulator_disable`, `msleep`, `backlight_update_status`;
* PHY: `phy_get`, `phy_put`, `phy_init`, `phy_power_on`, `phy_power_off`, `phy_exit`.

What a foreign call returns is a method parameter. That covers whether
`drm_mode_create` or `drm_mode_duplicate` allocated a mode, what `phy_get`
returned, and the codes of `phy_init` and `phy_power_on`. Whether the kernel
was built with generic-PHY support is a boolean parameter.

Each class method is proved against a value-level function of the module:
`ensures View() == AfterEnable(old(View()))`, for example. `View()` is the
object's flags, backlight properties, handle and trace. The properties are
proved about those functions: their own `ensures` clauses, plus lemmas about
sequences of calls.

Constants come from kernel headers, which are not part of this model:

| constant | value |
|---|---|
| `BL_CORE_FBBLANK` | 1 << 1 |
| `FB_BLANK_UNBLANK` | 0 |
| `FB_BLANK_POWERDOWN` | 4 |
| `DRM_MODE_TYPE_PREFERRED` | 1 << 3 |
| `DRM_MODE_TYPE_DRIVER` | 1 << 6 |
| `MEDIA_BUS_FMT_RGB888_1X24` | 0x100a |
| `ENXIO` | 6 |
| `ENODEV` | 19 |
| `MAX_ERRNO` | 4095 |
| `USBHS_HOST` | 0 |
| `USBHS_GADGET` | 1 |

Notes on the code as written:

* `lsd_panel_prepare` has its regulator enables commented out, so `prepare`
  always succeeds and only sleeps. The model follows that code.
  `lsd_panel_unprepare` still disables avdd and then dvdd. A prepare/unprepare
  pair therefore calls `regulator_disable` twice with no matching enable
  (`PrepareThenUnprepare`). `devm_kzalloc` zeroes the panel (line 256) and
  the regulator lookups are commented out (lines 264-270), so `p->avdd` and
  `p->dvdd` are NULL handles at those calls. What `regulator_disable` does
  with a NULL handle is outside the model.
* The driver never checks "enabled implies prepared". The invariant holds only
  while the caller keeps the usual order (`CallerOrderKeepsEnabledImpliesPrepared`).
  One unprepare of an enabled panel breaks it (`UnprepareOfEnabledPanel`).
* `drm_mode_duplicate` copies a table mode's own `type` bits. A mode from the
  mode table is therefore PREFERRED if its table has one entry or if the
  table entry was already marked PREFERRED. A mode built from a timing starts
  from a zeroed mode, so it is PREFERRED exactly when the timing table has one
  entry.
* The descriptor's `num_timings` and `num_modes` are the lengths of the
  `timings` and `modes` sequences.
* `get_timings` dereferences `p->desc` without a check, so `GetTimings`
  requires a descriptor. `get_fixed_modes` checks for a NULL descriptor, and
  `GetFixedModes` handles that case.
* `lsd_panel_get_modes` only forwards to `lsd_panel_get_fixed_modes`
  (drivers/gpu/drm/panel/panel-lsdtf-800x480.c:212-218). `Panel.GetFixedModes`
  models both. The connector that the framework attached as
  `panel->base.connector` is passed in as a parameter.

## Model

| member | source | states |
|---|---|---|
| `LsdPanel.ToLower` | drivers/gpu/drm/panel/panel-lsdtf-800x480.c:419 | the case folding of_match_node's strcasecmp applies: ASCII 'A'..'Z' and the Latin-1 capitals 0xC0..0xDE other than 0xD7 move up by 32, every other byte is kept |
| `LsdPanel.Fold` | drivers/gpu/drm/panel/panel-lsdtf-800x480.c:419 | a folded string has the same length and every byte folded |
| `LsdPanel.OfMatchNode` | drivers/gpu/drm/panel/panel-lsdtf-800x480.c:405-421 | the result is the first table entry whose compatible string the node lists, compared ignoring case; None exactly when no entry is listed |
| `LsdPanel.PlatformMatch` | drivers/gpu/drm/panel/panel-lsdtf-800x480.c:405-412 | the driver's table matches exactly the nodes that list a string equal to "lsd,070tft" ignoring case, and selects the lsd_070tft descriptor |
| `LsdPanel.FoldLsd070tft` | drivers/gpu/drm/panel/panel-lsdtf-800x480.c:407 | the table's compatible string is unchanged by case folding |
| `LsdPanel.FoldLsd070tftUpper` | drivers/gpu/drm/panel/panel-lsdtf-800x480.c:407 | "LSD,070TFT" folds to the table's compatible string |
| `LsdPanel.PlatformMatchIgnoresCase` | drivers/gpu/drm/panel/panel-lsdtf-800x480.c:415-421 | a node listing "LSD,070TFT" matches the table's only entry |
| `LsdPanel.PlatformProbe` | drivers/gpu/drm/panel/panel-lsdtf-800x480.c:415-424 | no match gives -ENODEV and no panel; a match gives 0 and a fresh panel bound to the matched descriptor, with both flags false and no backlight |
| `LsdPanel.Panel.constructor` | drivers/gpu/drm/panel/panel-lsdtf-800x480.c:260-262 | probe's initialisation: neither prepared nor enabled, the given descriptor, empty trace |
| `LsdPanel.Unblank` | drivers/gpu/drm/panel/panel-lsdtf-800x480.c:202 | the BL_CORE_FBBLANK bit ends clear and every other bit of props.state is kept |
| `LsdPanel.Blank` | drivers/gpu/drm/panel/panel-lsdtf-800x480.c:134 | the BL_CORE_FBBLANK bit ends set and every other bit of props.state is kept |
| `LsdPanel.AfterPrepare` | drivers/gpu/drm/panel/panel-lsdtf-800x480.c:162-187 | no-op when prepared; otherwise sets prepared and records only the 100 ms delay; enabled and backlight untouched |
| `LsdPanel.Panel.Prepare` | drivers/gpu/drm/panel/panel-lsdtf-800x480.c:162-187 | always returns 0; the new flags, backlight and trace are AfterPrepare of the old ones |
| `LsdPanel.AfterUnprepare` | drivers/gpu/drm/panel/panel-lsdtf-800x480.c:143-160 | no-op when not prepared; otherwise clears prepared and records avdd disable, 100 ms delay, dvdd disable, in that order |
| `LsdPanel.Panel.Unprepare` | drivers/gpu/drm/panel/panel-lsdtf-800x480.c:143-160 | always returns 0; the new state is AfterUnprepare of the old one |
| `LsdPanel.AfterEnable` | drivers/gpu/drm/panel/panel-lsdtf-800x480.c:194-210 | no-op when enabled; otherwise sets enabled and, with a backlight, unblanks its state, sets power to FB_BLANK_UNBLANK and records exactly one status update |
| `LsdPanel.Panel.Enable` | drivers/gpu/drm/panel/panel-lsdtf-800x480.c:194-210 | always returns 0; the new flags, backlight props and trace are AfterEnable of the old ones |
| `LsdPanel.AfterDisable` | drivers/gpu/drm/panel/panel-lsdtf-800x480.c:125-141 | no-op when not enabled; otherwise clears enabled and, with a backlight, sets power to FB_BLANK_POWERDOWN, only the blank bit of state, and records exactly one status update |
| `LsdPanel.Panel.Disable` | drivers/gpu/drm/panel/panel-lsdtf-800x480.c:125-141 | always returns 0; the new state is AfterDisable of the old one |
| `LsdPanel.LifecycleIdempotent` | drivers/gpu/drm/panel/panel-lsdtf-800x480.c:125-210 | repeating prepare, unprepare, enable or disable has no further effect |
| `LsdPanel.PrepareThenUnprepare` | drivers/gpu/drm/panel/panel-lsdtf-800x480.c:143-187 | from an unprepared panel, prepare then unprepare restores prepared (and enabled); the calls made are delay, avdd off, delay, dvdd off, with no regulator enable |
| `LsdPanel.EnableThenDisable` | drivers/gpu/drm/panel/panel-lsdtf-800x480.c:125-210 | on a disabled panel with a backlight, enable then disable leaves the backlight blanked and powered down, its other state bits as before, after exactly two status updates (unblanked, then blanked) |
| `LsdPanel.CallerOrderKeepsEnabledImpliesPrepared` | drivers/gpu/drm/panel/panel-lsdtf-800x480.c:125-210 | enabled-implies-prepared survives prepare, disable, enable of a prepared panel and unprepare of a disabled one |
| `LsdPanel.UnprepareOfEnabledPanel` | drivers/gpu/drm/panel/panel-lsdtf-800x480.c:147-159 | unprepare does not check enabled, so an enabled panel is left enabled but unprepared |
| `LsdPanel.MarkMode` | drivers/gpu/drm/panel/panel-lsdtf-800x480.c:84-87 | a marked mode carries DRIVER, carries PREFERRED exactly when its table has one entry or it already had it, and keeps its other type bits |
| `LsdPanel.ModeFromTiming` | drivers/gpu/drm/panel/panel-lsdtf-800x480.c:74-87 | the mode built from a timing comes from that timing, carries DRIVER, and carries PREFERRED exactly when the timing table has one entry |
| `LsdPanel.ModeFromTable` | drivers/gpu/drm/panel/panel-lsdtf-800x480.c:96-106 | the mode duplicated from a table entry comes from it, carries DRIVER, and carries PREFERRED exactly when the table has one entry or the entry had it |
| `LsdPanel.TimingModes` | drivers/gpu/drm/panel/panel-lsdtf-800x480.c:70-91 | the first loop adds at most one mode per timing, and each mode added is the mode of a timing whose allocation succeeded |
| `LsdPanel.TableModes` | drivers/gpu/drm/panel/panel-lsdtf-800x480.c:93-112 | the second loop adds at most one mode per table entry, and each is the mode of an entry whose duplication succeeded |
| `LsdPanel.FixedModes` | drivers/gpu/drm/panel/panel-lsdtf-800x480.c:70-112 | the modes get_modes adds: at most num_timings + num_modes, each the mode of a timing or table entry whose allocation succeeded |
| `LsdPanel.Successes` | drivers/gpu/drm/panel/panel-lsdtf-800x480.c:76-90 | the count of successful allocations is at most the number tried, and equals it exactly when none failed |
| `LsdPanel.TimingModesCount` | drivers/gpu/drm/panel/panel-lsdtf-800x480.c:70-91 | the first loop adds one mode per successful allocation |
| `LsdPanel.TableModesCount` | drivers/gpu/drm/panel/panel-lsdtf-800x480.c:93-112 | the second loop adds one mode per successful allocation |
| `LsdPanel.FixedModesCount` | drivers/gpu/drm/panel/panel-lsdtf-800x480.c:70-112 | the number of modes added is the number of successful allocations, at most num_timings + num_modes, and exactly that when none fails |
| `LsdPanel.TimingModesKeepSuccesses` | drivers/gpu/drm/panel/panel-lsdtf-800x480.c:70-91 | every timing whose allocation succeeds gets its mode, whatever failed before it |
| `LsdPanel.TableModesKeepSuccesses` | drivers/gpu/drm/panel/panel-lsdtf-800x480.c:93-112 | every table mode whose duplication succeeds is added, whatever failed before it |
| `LsdPanel.FixedModesKeepSuccesses` | drivers/gpu/drm/panel/panel-lsdtf-800x480.c:70-112 | a failed allocation is skipped without stopping the loops: every successful entry of either table is added |
| `LsdPanel.TimingModesFlags` | drivers/gpu/drm/panel/panel-lsdtf-800x480.c:84-87 | each mode from a timing comes from the timing table, carries DRIVER, and carries PREFERRED exactly when that table has one entry |
| `LsdPanel.TableModesFlags` | drivers/gpu/drm/panel/panel-lsdtf-800x480.c:103-106 | each mode from the mode table comes from it, carries DRIVER, and carries PREFERRED exactly when that table has one entry or the entry had it |
| `LsdPanel.FixedModesFlags` | drivers/gpu/drm/panel/panel-lsdtf-800x480.c:84-106 | every added mode carries DRIVER, and PREFERRED as decided by its own table's size |
| `LsdPanel.FixedDisplayInfo` | drivers/gpu/drm/panel/panel-lsdtf-800x480.c:114-120 | bpc, width, height and bus flags are copied always; the bus format list becomes the descriptor's format only when that format is non-zero |
| `LsdPanel.Panel.GetFixedModes` | drivers/gpu/drm/panel/panel-lsdtf-800x480.c:60-123 | a NULL descriptor returns 0 and leaves the connector unchanged; otherwise the probed list grows by FixedModes in order, the count returned is its length, and the display info becomes FixedDisplayInfo |
| `LsdPanel.Lsd070tftModes` | drivers/gpu/drm/panel/panel-lsdtf-800x480.c:316-374 | the shipped descriptor yields one DRIVER and PREFERRED mode from its timing, or none if the allocation fails; display info 6 bpc, 154 x 86 mm, RGB888, no flags |
| `LsdPanel.CopyPrefix` | drivers/gpu/drm/panel/panel-lsdtf-800x480.c:230-232 | the first k slots hold the first k timings and every later slot is untouched |
| `LsdPanel.Panel.GetTimings` | drivers/gpu/drm/panel/panel-lsdtf-800x480.c:220-235 | returns num_timings whatever is requested; a non-null buffer gets exactly min(requested, total) leading timings and nothing else; a null buffer is not written |
| `UsbhsRcar2.UsbhsPriv.constructor` | drivers/usb/renesas_usbhs/rcar2.c:14-29 | the state before hardware_init: no PHY handle bound and no PHY call made (priv itself is allocated zeroed by the USBHS core, which is not part of this model) |
| `UsbhsRcar2.GetId` | drivers/usb/renesas_usbhs/rcar2.c:65-68 | the id names the gadget role |
| `UsbhsRcar2.AfterHardwareInit` | drivers/usb/renesas_usbhs/rcar2.c:14-29 | without generic PHY: -ENXIO, no call, nothing changed; otherwise one phy_get("usb"), whose error is returned unchanged with phy untouched, or whose handle is bound with 0 |
| `UsbhsRcar2.UsbhsPriv.HardwareInit` | drivers/usb/renesas_usbhs/rcar2.c:14-29 | the new handle, trace and return value are AfterHardwareInit of the old state |
| `UsbhsRcar2.HardwareInitBindsIffSucceeds` | drivers/usb/renesas_usbhs/rcar2.c:18-28 | init returns 0 exactly when generic PHY is built and phy_get found a handle; otherwise a negative code with phy unchanged |
| `UsbhsRcar2.AfterHardwareExit` | drivers/usb/renesas_usbhs/rcar2.c:31-41 | always 0 and phy ends null; a bound handle is released once, an unbound state is left as it is |
| `UsbhsRcar2.UsbhsPriv.HardwareExit` | drivers/usb/renesas_usbhs/rcar2.c:31-41 | the new state and return value are AfterHardwareExit of the old state |
| `UsbhsRcar2.InitThenExitTwice` | drivers/usb/renesas_usbhs/rcar2.c:14-41 | after init and exit the handle is null and a successful init's handle was released exactly once; a second exit calls nothing and returns 0 |
| `UsbhsRcar2.AfterPowerCtrl` | drivers/usb/renesas_usbhs/rcar2.c:43-63 | phy never changes; unbound gives -ENODEV with no call; enable calls init, then power_on only if init returned 0, and returns the last call's result (0 exactly when both succeed); disable calls power_off then exit and returns 0 |
| `UsbhsRcar2.UsbhsPriv.PowerCtrl` | drivers/usb/renesas_usbhs/rcar2.c:43-63 | the new trace and return value are AfterPowerCtrl of the old state |
| `UsbhsRcar2.PowerCtrlUnbound` | drivers/usb/renesas_usbhs/rcar2.c:47-62 | with no PHY bound, enabling and disabling both fail with -ENODEV and call nothing |

## Left out

- Module registration and device-tree plumbing are framework glue, so they are not modelled: `module_platform_driver`, `MODULE_*`, `devm_kzalloc` (and its -ENOMEM path), `drm_panel_init`, `drm_panel_add` (and its error path), `dev_set_drvdata`, and `lsd_panel_remove` and `lsd_panel_shutdown`. Probe is modelled only up to the descriptor lookup and the flag initialisation.
- `LsdPanel.OfMatchNode`: the kernel's `of_match_node` compares compatible strings with `strcasecmp`, and the model does the same through `Fold`. Strings are `seq<char>` whose chars stand for bytes below 256, folded as the kernel's `tolower` folds them. The kernel also scores table entries by compatible position, type and name and picks the best score; the model takes the first entry any compatible string matches. This driver's table has one entry with no type or name, so that ranking never decides anything for it.
- `msleep(100)` is wall-clock timing. It appears only as a `Sleep(100)` event in the trace.
- `printk` and `dev_err` logging.
- The conversions done by `videomode_from_timing` and `drm_display_mode_from_videomode`, the contents copied by `drm_mode_duplicate`, `drm_mode_set_name`, and the list handling inside `drm_mode_probed_add`. An added mode is an opaque record of its origin and its type bits, appended to the connector's list.
- `drm_display_info_set_bus_formats` is modelled as always succeeding. Its own allocation failure, which leaves the old list in place, is not modelled.
- The internals of the regulator, backlight and generic-PHY subsystems are out of scope: `regulator_disable`, `backlight_update_status`, `phy_get`, `phy_put`, `phy_init`, `phy_power_on`, `phy_power_off` and `phy_exit` are trace events. The return values of `phy_power_off` and `phy_exit` are discarded by the source and are not inputs.
- In this snapshot the regulator and backlight handles are never acquired, because that code is commented out. The model records the two regulator disables as events without a handle; `regulator_disable` is in fact called on NULL handles, and its behaviour then is not modelled. It keeps an optional backlight so that both branches of enable and disable are covered, and probe creates a panel without one.
- All commented-out code is left out because none of it is live: the regulator enables in prepare, the acquisition in probe, the alternative timing tables, descriptor and mode. The unreachable `disable_dvdd` label is left out for the same reason.
- Concurrency: callers serialise every call, so there is none to model.
- Integer widths: counts and sizes are unbounded naturals. The tables are tiny, so 32-bit limits are never reached.
- The `base` register argument of `usbhs_rcar2_power_ctrl` is unused by the source and is not modelled.
