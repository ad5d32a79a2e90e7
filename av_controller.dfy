/**
 * The capture controller's device switching, abstracted to the active device,
 * whether the current session is running, and the calls made on sessions.
 * Starting prepares a fresh session for the active device (choosing its
 * format and frame durations) and then runs it; switching stops, assigns the
 * device, then starts.
 */
module AVControllerModel {
  import opened Wrappers
  import opened FrameRate
  import opened CaptureFormat

  /** What a device's configuration holds: its active format and frame-duration bounds. */
  datatype ActiveConfig = ActiveConfig(
    format: Format,
    minFrameDuration: Duration,
    maxFrameDuration: Duration)

  /**
   * The configuration `configureGeneric` leaves: the preferred format when the
   * device has one; with no formats the source stops at a debug assertion and
   * otherwise changes nothing.
   */
  function AfterConfigureGeneric(formats: seq<Format>, c: ActiveConfig): (r: ActiveConfig)
    ensures formats == [] ==> r == c
    ensures formats != [] ==> exists i: nat :: IsPreferredIndex(formats, i) && r.format == formats[i]
    ensures r.minFrameDuration == c.minFrameDuration && r.maxFrameDuration == c.maxFrameDuration
  {
    if formats == [] then c
    else
      PreferredIndexCharacterized(formats, PreferredIndex(formats));
      c.(format := formats[PreferredIndex(formats)])
  }

  /**
   * The configuration `configureFrameRate` leaves: the durations of a range of
   * the active format with the largest maximum rate, or no change when the
   * format has no ranges.
   */
  function AfterConfigureFrameRate(c: ActiveConfig): (r: ActiveConfig)
    ensures r.format == c.format
    ensures c.format.ranges == [] ==> r == c
    ensures c.format.ranges != [] ==>
              exists k :: 0 <= k < |c.format.ranges| &&
                (forall j :: 0 <= j < |c.format.ranges| ==>
                   c.format.ranges[j].maxFrameRate <= c.format.ranges[k].maxFrameRate) &&
                r.minFrameDuration == c.format.ranges[k].minFrameDuration &&
                r.maxFrameDuration == c.format.ranges[k].maxFrameDuration
  {
    match SelectFrameRateRange(c.format.ranges)
    case None => c
    case Some(range) =>
      c.(minFrameDuration := range.minFrameDuration, maxFrameDuration := range.maxFrameDuration)
  }

  /** The configuration one start leaves on a device with the given formats. */
  function Reconfigured(formats: seq<Format>, c: ActiveConfig): ActiveConfig
  {
    AfterConfigureFrameRate(AfterConfigureGeneric(formats, c))
  }

  /**
   * Starting again on the same device changes nothing more: switching A to B
   * and back to A leaves A configured as a single start would.
   */
  lemma ReconfiguredIdempotent(formats: seq<Format>, c: ActiveConfig)
    ensures Reconfigured(formats, Reconfigured(formats, c)) == Reconfigured(formats, c)
  {
  }

  /** A call made on a capture session. */
  datatype SessionCall = StopRunning | Prepare(device: CaptureDevice) | StartRunning

  /** A camera: its fixed list of formats and its mutable active configuration. */
  class CaptureDevice {
    const formats: seq<Format>
    var activeFormat: Format
    var activeMinFrameDuration: Duration
    var activeMaxFrameDuration: Duration

    function Config(): ActiveConfig
      reads this
    {
      ActiveConfig(activeFormat, activeMinFrameDuration, activeMaxFrameDuration)
    }

    constructor (formats: seq<Format>, config: ActiveConfig)
      ensures this.formats == formats && Config() == config
    {
      this.formats := formats;
      activeFormat := config.format;
      activeMinFrameDuration := config.minFrameDuration;
      activeMaxFrameDuration := config.maxFrameDuration;
    }
  }

  class Controller {
    const devices: seq<CaptureDevice>
    var device: CaptureDevice
    /** Whether the current session is running. */
    var running: bool
    /** Every call made on a session, oldest first. */
    var calls: seq<SessionCall>

    /** The first discovered device becomes active; no session is running yet. */
    constructor (devices: seq<CaptureDevice>)
      requires devices != []
      ensures this.devices == devices && device == devices[0]
      ensures !running && calls == []
    {
      this.devices := devices;
      device := devices[0];
      running := false;
      calls := [];
    }

    /** Makes the preferred format the active one. */
    method ConfigureGeneric()
      requires FormatsFit(device.formats)
      modifies device
      ensures device.Config() == AfterConfigureGeneric(device.formats, old(device.Config()))
    {
      var format := FindPreferredFormat(device.formats);
      if format.None? {
        return;
      }
      device.activeFormat := format.value;
    }

    /** Applies the frame durations of the active format's fastest range, if it has one. */
    method ConfigureFrameRate()
      modifies device
      ensures device.Config() == AfterConfigureFrameRate(old(device.Config()))
    {
      var selectedFrameRate := SelectFrameRateRange(device.activeFormat.ranges);
      if selectedFrameRate.Some? {
        device.activeMinFrameDuration := selectedFrameRate.value.minFrameDuration;
        device.activeMaxFrameDuration := selectedFrameRate.value.maxFrameDuration;
      }
    }

    /** Replaces the session with a fresh, stopped one for the device, and configures the device. */
    method PrepForCapture()
      requires FormatsFit(device.formats)
      modifies this, device
      ensures device == old(device) && !running
      ensures calls == old(calls) + [Prepare(device)]
      ensures device.Config() == Reconfigured(device.formats, old(device.Config()))
    {
      running := false;
      calls := calls + [Prepare(device)];
      ConfigureGeneric();
      ConfigureFrameRate();
    }

    method Start()
      requires FormatsFit(device.formats)
      modifies this, device
      ensures device == old(device) && running
      ensures calls == old(calls) + [Prepare(device), StartRunning]
      ensures device.Config() == Reconfigured(device.formats, old(device.Config()))
    {
      PrepForCapture();
      running := true;
      calls := calls + [StartRunning];
    }

    /** Stops the current session; harmless when it is not running. */
    method Stop()
      modifies this
      ensures device == old(device) && !running
      ensures calls == old(calls) + [StopRunning]
    {
      running := false;
      calls := calls + [StopRunning];
    }

    /**
     * No device: nothing happens. Otherwise stop the session, make `d` the
     * active device, and start again on it.
     */
    method Change(d: CaptureDevice?)
      requires d != null ==> FormatsFit(d.formats)
      modifies this, d
      ensures d == null ==> unchanged(this)
      ensures d != null ==> device == d && running
      ensures d != null ==> calls == old(calls) + [StopRunning, Prepare(d), StartRunning]
      ensures d != null ==> d.Config() == Reconfigured(d.formats, old(d.Config()))
    {
      if d == null {
        return;
      }
      Stop();
      device := d;
      Start();
    }
  }

  /**
   * Switching A to B and back to A leaves A active, running, and configured as
   * after a single start on A; B keeps the configuration its own start gave it.
   * Every start is preceded by the stop of the session before it. A and B may
   * be the same device.
   */
  method SwitchAwayAndBack(controller: Controller, a: CaptureDevice, b: CaptureDevice)
    requires FormatsFit(a.formats) && FormatsFit(b.formats)
    modifies controller, a, b
    ensures controller.device == a && controller.running
    ensures controller.calls == old(controller.calls) +
              [StopRunning, Prepare(a), StartRunning,
               StopRunning, Prepare(b), StartRunning,
               StopRunning, Prepare(a), StartRunning]
    ensures a.Config() == Reconfigured(a.formats, old(a.Config()))
    ensures b.Config() == Reconfigured(b.formats, old(b.Config()))
  {
    ghost var a0, b0 := a.Config(), b.Config();
    controller.Change(a);
    ghost var a1, b1 := a.Config(), b.Config();
    assert b1 == if a == b then Reconfigured(b.formats, b0) else b0;
    controller.Change(b);
    ghost var a2, b2 := a.Config(), b.Config();
    assert b2 == Reconfigured(b.formats, b1);
    assert a2 == if a == b then b2 else a1;
    controller.Change(a);
    assert a.Config() == Reconfigured(a.formats, a2);
    ReconfiguredIdempotent(a.formats, a0);
    ReconfiguredIdempotent(a.formats, Reconfigured(a.formats, a0));
  }
}
