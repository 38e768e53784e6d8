/** src/backlight.c: dimming and restoring of display and keyboard backlights. */
module Backlights {
  import opened Common

  type Path = string

  const UNKNOWN := -1

  /**
   * `brightness` is the value cached at the last device event, UNKNOWN when it could not be read;
   * `preDimBrightness` is the value saved by a dim, UNKNOWN when there is none to restore;
   * `level` is what the device itself shows.
   */
  datatype Backlight = Backlight(brightness: int, preDimBrightness: int, level: int)

  datatype BacklightConf = BacklightConf(dimSec: guint, dimValue: int, dimPercent: real)

  type Devices = map<Path, Backlight>
  type Confs = map<Path, BacklightConf>

  function Dimmed(v: int, percent: real): real {
    v as real - v as real * percent
  }

  /** The conversion of what is not negative to an integer drops the fraction. */
  function Truncated(d: real): int {
    d.Floor
  }

  /** The target of a percent dim. For a percentage above 1.0 the C conversion is undefined; here it is 0. */
  function DimTarget(v: int, percent: real): int {
    var d := Dimmed(v, percent);
    Truncated(if d > 0.0 then d + 0.5 else 0.0)
  }

  /** The value that dimming by `c` asks for on a device of brightness `v`. */
  function Target(c: BacklightConf, v: int): int {
    if c.dimValue != -1 then c.dimValue else DimTarget(v, c.dimPercent)
  }

  function Dim(c: BacklightConf, bl: Backlight): Backlight {
    if c.dimValue == -1 && bl.brightness == UNKNOWN then bl
    else bl.(preDimBrightness := bl.brightness, level := Target(c, bl.brightness))
  }

  function Restore(bl: Backlight): Backlight {
    if bl.preDimBrightness == UNKNOWN then bl
    else bl.(level := bl.preDimBrightness, preDimBrightness := UNKNOWN)
  }

  /** A change event of the device refreshes the cached brightness. */
  function Refresh(bl: Backlight): Backlight {
    bl.(brightness := bl.level)
  }

  predicate Concerns(cs: Confs, p: Path, timeout: guint) {
    p in cs && cs[p].dimSec == timeout
  }

  /** The device table after the callback of `timeout`: exactly the devices configured for it change. */
  function AfterTimeout(devices: Devices, cs: Confs, timeout: guint, state: bool): Devices {
    map p | p in devices ::
      if !Concerns(cs, p, timeout) then devices[p]
      else if state then Dim(cs[p], devices[p])
      else Restore(devices[p])
  }

  class BacklightTable {
    var devices: Devices

    constructor (devices: Devices)
      ensures this.devices == devices
    {
      this.devices := devices;
    }

    method SetBrightness(p: Path, v: int)
      requires p in devices
      modifies this
      ensures devices == old(devices)[p := old(devices)[p].(level := v)]
    {
      devices := devices[p := devices[p].(level := v)];
    }

    method DimValue(p: Path, v: int)
      requires p in devices
      modifies this
      ensures devices == old(devices)[p := old(devices)[p].(preDimBrightness := old(devices)[p].brightness, level := v)]
    {
      devices := devices[p := devices[p].(preDimBrightness := devices[p].brightness)];
      SetBrightness(p, v);
    }

    method DimPercent(p: Path, percent: real)
      requires p in devices
      modifies this
      ensures var bl := old(devices)[p];
              var v := bl.brightness;
              devices == if v == UNKNOWN then old(devices)
                         else old(devices)[p := bl.(preDimBrightness := v, level := DimTarget(v, percent))]
    {
      var v := devices[p].brightness;
      if v == UNKNOWN {
        return;
      }
      var d := Dimmed(v, percent);
      var target := Truncated(if d > 0.0 then d + 0.5 else 0.0);
      devices := devices[p := devices[p].(preDimBrightness := v)];
      SetBrightness(p, target);
    }

    method RestoreOne(p: Path)
      requires p in devices
      modifies this
      ensures devices == old(devices)[p := Restore(old(devices)[p])]
    {
      if devices[p].preDimBrightness == UNKNOWN {
        return;
      }
      SetBrightness(p, devices[p].preDimBrightness);
      devices := devices[p := devices[p].(preDimBrightness := UNKNOWN)];
    }

    /** The configurations are visited in the arbitrary order of a hash table; the outcome does not depend on it. */
    method OnTimeout(cs: Confs, timeout: guint, state: bool)
      modifies this
      ensures devices == AfterTimeout(old(devices), cs, timeout, state)
    {
      var left := cs.Keys;
      while left != {}
        invariant left <= cs.Keys
        invariant devices.Keys == old(devices).Keys
        invariant forall p :: p in devices ==>
          devices[p] == (if p in left then old(devices) else AfterTimeout(old(devices), cs, timeout, state))[p]
        decreases |left|
      {
        var p :| p in left;
        left := left - {p};
        if cs[p].dimSec != timeout || p !in devices {
          continue;
        }
        if state {
          if cs[p].dimValue != -1 {
            DimValue(p, cs[p].dimValue);
          } else {
            DimPercent(p, cs[p].dimPercent);
          }
        } else {
          RestoreOne(p);
        }
      }
      assert devices == AfterTimeout(old(devices), cs, timeout, state);
    }
  }

  /** A percent dim over the reals: within one half of v * (1 - percent), and never out of 0..v. */
  lemma DimTargetRounds(v: nat, percent: real)
    requires 0.01 <= percent <= 1.0
    ensures 0 <= DimTarget(v, percent) <= v
    ensures var exact := v as real * (1.0 - percent);
            exact - 0.5 <= DimTarget(v, percent) as real <= exact + 0.5
    ensures percent == 1.0 ==> DimTarget(v, percent) == 0
  {
    DimmedBounds(v, percent);
    HalfRounds(Dimmed(v, percent), v);
  }

  lemma DimmedBounds(v: nat, percent: real)
    requires 0.0 <= percent <= 1.0
    ensures Dimmed(v, percent) == v as real * (1.0 - percent)
    ensures 0.0 <= Dimmed(v, percent) <= v as real
    ensures percent == 1.0 ==> Dimmed(v, percent) == 0.0
  {
    ProductGrows(v as real, percent);
    ProductGrows(v as real, 1.0 - percent);
  }

  lemma ProductGrows(x: real, y: real)
    requires 0.0 <= x && 0.0 <= y
    ensures 0.0 <= x * y
  {
  }

  lemma HalfRounds(d: real, v: nat)
    requires 0.0 <= d <= v as real
    ensures var r := Truncated(if d > 0.0 then d + 0.5 else 0.0);
            0 <= r <= v && d - 0.5 <= r as real <= d + 0.5 && (d == 0.0 ==> r == 0)
  {
  }

  /**
   * A dim and a restore bring a device back to the level it showed before, exactly when the cached brightness
   * was that level and was known: a stale or an unknown cache loses the level for good. With an unknown
   * cache nothing changes at all unless a fixed value is configured.
   */
  lemma DimThenRestore(c: BacklightConf, bl: Backlight)
    requires bl.preDimBrightness == UNKNOWN && bl.level >= 0
    ensures var after := Restore(Dim(c, bl));
            && after.preDimBrightness == UNKNOWN
            && (after.level == bl.level <==>
                if bl.brightness == UNKNOWN then c.dimValue == -1 || c.dimValue == bl.level
                else bl.brightness == bl.level)
  {
    var dimmed := Dim(c, bl);
    if bl.brightness == UNKNOWN && c.dimValue != -1 {
      assert Restore(dimmed) == dimmed;
    }
  }

  /** A cache that was 50 when the device shows 80 brings it back to 50; an unknown one leaves it at the fixed value. */
  lemma StaleCacheLosesLevel(dimSec: guint)
    ensures var c := BacklightConf(dimSec, 10, 0.3);
            && Restore(Dim(c, Backlight(50, UNKNOWN, 80))) == Backlight(50, UNKNOWN, 50)
            && Restore(Dim(c, Backlight(UNKNOWN, UNKNOWN, 80))) == Backlight(UNKNOWN, UNKNOWN, 10)
  {
  }
}
