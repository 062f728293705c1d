/** The R-Car Gen2 USBHS platform callbacks: a PHY handle that is either
    absent or bound, acquired by hardware_init, released by hardware_exit and
    sequenced by power_ctrl.

    Calls into the generic PHY framework are recorded, in order, as events
    of a ghost trace; what phy_get, phy_init and phy_power_on return is an
    input. */
module UsbhsRcar2 {
  import opened KernelTypes

  /** include/linux/usb/renesas_usbhs.h: the role get_id reports. */
  const USBHS_HOST: int := 0
  const USBHS_GADGET: int := 1

  datatype Role = Host | Gadget

  /** The role an id names, if any. */
  function RoleOf(id: int): Option<Role> {
    if id == USBHS_HOST then Some(Host)
    else if id == USBHS_GADGET then Some(Gadget)
    else None
  }

  /** usbhs_rcar2_get_id: this controller always runs in the peripheral role. */
  function GetId(): (id: int)
    ensures RoleOf(id) == Some(Gadget)
  {
    USBHS_GADGET
  }

  /** An acquired struct phy, told apart by identity. */
  datatype PhyHandle = PhyHandle(id: nat)

  /** What phy_get returns: a handle, or an ERR_PTR carrying an error code. */
  datatype PhyLookup = Found(handle: PhyHandle) | Failed(err: int)

  /** phy_get's promise: an error it reports is an IS_ERR value. */
  predicate ValidLookup(lookup: PhyLookup) {
    lookup.Failed? ==> IsErrValue(lookup.err)
  }

  /** Calls into the generic PHY framework. */
  datatype PhyEvent =
    | PhyGet(name: string)
    | PhyPut(handle: PhyHandle)
    | PhyInit(handle: PhyHandle)
    | PhyPowerOn(handle: PhyHandle)
    | PhyPowerOff(handle: PhyHandle)
    | PhyExit(handle: PhyHandle)

  /** priv->phy and the calls made so far. */
  datatype PhyView = PhyView(phy: Option<PhyHandle>, trace: seq<PhyEvent>)

  /** The state after a callback, and the value it returns. */
  datatype Outcome = Outcome(view: PhyView, ret: int)

  /** The calls a callback made: what it appended to the trace. */
  function NewCalls(v: PhyView, o: Outcome): seq<PhyEvent>
    requires |v.trace| <= |o.view.trace|
  {
    o.view.trace[|v.trace|..]
  }

  /** usbhs_rcar2_hardware_init. Without generic-PHY support it fails with
      -ENXIO and calls nothing; otherwise it asks for the "usb" PHY, returns
      phy_get's error unchanged without touching priv->phy, or binds the handle. */
  function AfterHardwareInit(v: PhyView, genericPhy: bool, lookup: PhyLookup): (o: Outcome)
    ensures !genericPhy ==> o == Outcome(v, -ENXIO)
    ensures genericPhy ==> o.view.trace == v.trace + [PhyGet("usb")]
    ensures genericPhy && lookup.Failed? ==> o.ret == lookup.err && o.view.phy == v.phy
    ensures genericPhy && lookup.Found? ==> o.ret == 0 && o.view.phy == Some(lookup.handle)
  {
    if genericPhy then
      var t := v.trace + [PhyGet("usb")];
      match lookup
        case Failed(e) => Outcome(v.(trace := t), e)
        case Found(h) => Outcome(PhyView(Some(h), t), 0)
    else Outcome(v, -ENXIO)
  }

  /** usbhs_rcar2_hardware_exit: releases a bound handle once and clears
      priv->phy; with none bound it does nothing. It always returns 0. */
  function AfterHardwareExit(v: PhyView): (o: Outcome)
    ensures o.ret == 0 && o.view.phy.None?
    ensures v.phy.None? ==> o.view == v
    ensures v.phy.Some? ==> o.view.trace == v.trace + [PhyPut(v.phy.value)]
  {
    match v.phy
      case None => Outcome(v, 0)
      case Some(h) => Outcome(PhyView(None, v.trace + [PhyPut(h)]), 0)
  }

  /** usbhs_rcar2_power_ctrl. initRet and powerOnRet are what phy_init and
      phy_power_on return; power_off and exit are called for effect only. */
  function AfterPowerCtrl(v: PhyView, enable: int, initRet: int, powerOnRet: int): (o: Outcome)
    ensures o.view.phy == v.phy
    ensures |v.trace| <= |o.view.trace| && o.view.trace[..|v.trace|] == v.trace
    ensures v.phy.None? ==> o == Outcome(v, -ENODEV)
    ensures v.phy.Some? && enable != 0 ==>
              NewCalls(v, o) == [PhyInit(v.phy.value)] + (if initRet == 0 then [PhyPowerOn(v.phy.value)] else []) &&
              o.ret == (if initRet == 0 then powerOnRet else initRet)
    ensures v.phy.Some? && enable != 0 ==> (o.ret == 0 <==> initRet == 0 && powerOnRet == 0)
    ensures v.phy.Some? && enable == 0 ==>
              NewCalls(v, o) == [PhyPowerOff(v.phy.value), PhyExit(v.phy.value)] && o.ret == 0
  {
    match v.phy
      case None => Outcome(v, -ENODEV)
      case Some(h) =>
        if enable != 0 then
          if initRet == 0 then Outcome(v.(trace := v.trace + [PhyInit(h), PhyPowerOn(h)]), powerOnRet)
          else Outcome(v.(trace := v.trace + [PhyInit(h)]), initRet)
        else Outcome(v.(trace := v.trace + [PhyPowerOff(h), PhyExit(h)]), 0)
  }

  /** hardware_init succeeds exactly when it binds a handle; on failure it
      returns a negative code and priv->phy keeps its old value. */
  lemma HardwareInitBindsIffSucceeds(v: PhyView, genericPhy: bool, lookup: PhyLookup)
    requires ValidLookup(lookup)
    ensures AfterHardwareInit(v, genericPhy, lookup).ret <= 0
    ensures AfterHardwareInit(v, genericPhy, lookup).ret == 0 <==> genericPhy && lookup.Found?
    ensures AfterHardwareInit(v, genericPhy, lookup).ret != 0 ==>
              AfterHardwareInit(v, genericPhy, lookup).view.phy == v.phy
  {
  }

  /** init, exit, exit: the handle ends unbound, is released exactly once if
      init bound it, and the second exit calls nothing and returns 0. */
  lemma InitThenExitTwice(v: PhyView, genericPhy: bool, lookup: PhyLookup)
    requires v.phy.None? && ValidLookup(lookup)
    ensures var i := AfterHardwareInit(v, genericPhy, lookup);
            var e1 := AfterHardwareExit(i.view);
            var e2 := AfterHardwareExit(e1.view);
            e1.view.phy.None? && e2 == Outcome(e1.view, 0) &&
            (i.ret == 0 ==> e1.view.trace == v.trace + [PhyGet("usb"), PhyPut(lookup.handle)])
  {
  }

  /** power_ctrl on an unbound controller fails with -ENODEV and calls
      nothing, whether enabling or disabling. */
  lemma PowerCtrlUnbound(v: PhyView, enable: int, initRet: int, powerOnRet: int)
    requires v.phy.None?
    ensures AfterPowerCtrl(v, enable, initRet, powerOnRet) == Outcome(v, -ENODEV)
  {
  }

  /** struct usbhs_priv, reduced to the field these callbacks use. */
  class UsbhsPriv {
    var phy: Option<PhyHandle>
    ghost var trace: seq<PhyEvent>

    ghost function View(): PhyView
      reads this
    {
      PhyView(phy, trace)
    }

    /** The USBHS core allocates priv zeroed: no PHY bound. */
    constructor ()
      ensures phy.None? && trace == []
    {
      phy := None;
      trace := [];
    }

    method HardwareInit(genericPhy: bool, lookup: PhyLookup) returns (r: int)
      modifies this
      ensures Outcome(View(), r) == AfterHardwareInit(old(View()), genericPhy, lookup)
    {
      if genericPhy {
        trace := trace + [PhyGet("usb")];
        if lookup.Failed? {
          return lookup.err;
        }
        phy := Some(lookup.handle);
        return 0;
      }
      return -ENXIO;
    }

    method HardwareExit() returns (r: int)
      modifies this
      ensures Outcome(View(), r) == AfterHardwareExit(old(View()))
    {
      if phy.Some? {
        trace := trace + [PhyPut(phy.value)];
        phy := None;
      }
      return 0;
    }

    method PowerCtrl(enable: int, initRet: int, powerOnRet: int) returns (r: int)
      modifies this
      ensures Outcome(View(), r) == AfterPowerCtrl(old(View()), enable, initRet, powerOnRet)
    {
      r := -ENODEV;
      if phy.Some? {
        var h := phy.value;
        if enable != 0 {
          trace := trace + [PhyInit(h)];
          r := initRet;
          if r == 0 {
            trace := trace + [PhyPowerOn(h)];
            r := powerOnRet;
          }
        } else {
          trace := trace + [PhyPowerOff(h)];
          trace := trace + [PhyExit(h)];
          r := 0;
        }
      }
    }
  }
}
