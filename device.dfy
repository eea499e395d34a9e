/**
 * The C++ radio wrapper `LoraDevice` (src/lora/LoraDevice.h, src/lora/LoraDevice.cpp):
 * a small state machine over its configuration, its last error and two flags, on top of
 * an abstract driver. Each operation is specified by a pure function from the old state
 * to the new state, the error code returned and the driver calls made; the class's
 * methods are proved to follow those functions.
 */
module Device {
  import opened Base
  import opened Errno
  import opened Radio

  /** `LoraDevice::ErrorCode`. */
  datatype ErrorCode =
    | Success
    | DeviceNotReady
    | ConfigFailed
    | SendFailed
    | RecvFailed
    | InvalidParams
    | Timeout
    | Busy
  {
    /** The enumerator's `uint8_t` value. */
    function Value(): (v: U8)
      ensures v <= 7
      ensures v == 0 <==> this == Success
    {
      match this
      case Success => 0
      case DeviceNotReady => 1
      case ConfigFailed => 2
      case SendFailed => 3
      case RecvFailed => 4
      case InvalidParams => 5
      case Timeout => 6
      case Busy => 7
    }
  }

  /** The eight codes have eight distinct values. */
  lemma ErrorValuesDistinct(a: ErrorCode, b: ErrorCode)
    ensures a.Value() == b.Value() <==> a == b
  {
  }

  /** `LoraDevice::Config`. */
  datatype Config = Config(
    frequency: U32,
    bandwidth: Bandwidth,
    datarate: Datarate,
    preambleLen: U8,
    codingRate: CodingRate,
    iqInverted: bool,
    publicNetwork: bool,
    txPower: I8)

  /** `LoraDevice::DEFAULT_CONFIG`. */
  const DEFAULT_CONFIG: Config :=
    Config(frequency := 865100000, bandwidth := Bw125kHz, datarate := Sf10, preambleLen := 8,
           codingRate := Cr4_5, iqInverted := false, publicNetwork := false, txPower := 4)

  /** The default `timeout_ms` of `send` and of `recv`. */
  const SEND_TIMEOUT_MS: U32 := 5000
  const RECV_TIMEOUT_MS: U32 := 10000

  /** The modem configuration built from `c`, for transmitting or for receiving. */
  function ModemOf(c: Config, tx: bool): (m: ModemConfig)
    ensures m.tx == tx
    ensures m.frequency == c.frequency && m.bandwidth == c.bandwidth && m.datarate == c.datarate
    ensures m.codingRate == c.codingRate && m.preambleLen == c.preambleLen && m.txPower == c.txPower
    ensures m.iqInverted == c.iqInverted && m.publicNetwork == c.publicNetwork
  {
    ModemConfig(
      frequency := c.frequency, bandwidth := c.bandwidth, datarate := c.datarate,
      codingRate := c.codingRate, preambleLen := c.preambleLen, txPower := c.txPower,
      tx := tx, iqInverted := c.iqInverted, publicNetwork := c.publicNetwork)
  }

  /** `convertZephyrError`: four return values have codes of their own; everything else is a config failure. */
  function ConvertZephyrError(ret: int): (e: ErrorCode)
    ensures e == Success <==> ret == 0
    ensures e == Busy <==> ret == -EBUSY
    ensures e == Timeout <==> ret == -ETIMEDOUT
    ensures e == InvalidParams <==> ret == -EINVAL
    ensures e == ConfigFailed <==> ret !in {0, -EBUSY, -ETIMEDOUT, -EINVAL}
  {
    if ret == 0 then Success
    else if ret == -EBUSY then Busy
    else if ret == -ETIMEDOUT then Timeout
    else if ret == -EINVAL then InvalidParams
    else ConfigFailed
  }

  // ---------------------------------------------------------------------------
  // The object's state and the operations on it, as functions

  /** The four mutable members of the object. */
  datatype State = State(config: Config, lastError: ErrorCode, deviceReady: bool, initialized: bool)

  /**
   * What an operation does: the state after it, the code it returns, the driver calls it
   * made in order, and the value it stored through `received_length`, if any.
   */
  datatype Effect = Effect(state: State, err: ErrorCode, calls: seq<DriverCall>, received: Option<U16>)

  /** The state the constructor establishes. */
  const INITIAL_STATE: State := State(DEFAULT_CONFIG, Success, false, false)

  /** The codes an operation can return: the driver never causes `SEND_FAILED` or `RECV_FAILED`. */
  predicate Reachable(e: ErrorCode) {
    e != SendFailed && e != RecvFailed
  }

  /** `applyConfiguration`: pushes the configuration (in transmit mode) to the driver. */
  function ApplySpec(s: State, driver: Driver): (r: (ErrorCode, seq<DriverCall>))
    ensures !s.deviceReady ==> r == (DeviceNotReady, [])
    ensures s.deviceReady ==> r.1 == [Configure(ModemOf(s.config, true))]
    ensures s.deviceReady ==> (r.0 == Success <==> driver(r.1[0]) >= 0)
    ensures s.deviceReady && r.0 != Success ==> r.0 == ConvertZephyrError(driver(r.1[0]))
    ensures Reachable(r.0)
  {
    if !s.deviceReady then (DeviceNotReady, [])
    else
      var call := Configure(ModemOf(s.config, true));
      var ret := driver(call);
      if ret < 0 then (ConvertZephyrError(ret), [call]) else (Success, [call])
  }

  /**
   * `init(config)`: when the device is not ready, only the ready flag and the last error
   * change; otherwise the configuration is taken and applied, and the object counts as
   * initialised exactly when that succeeds.
   */
  function InitSpec(s: State, config: Config, ready: bool, driver: Driver): (r: Effect)
    ensures r.state.lastError == r.err && Reachable(r.err) && r.received == None
    ensures !ready ==> r == Effect(s.(lastError := DeviceNotReady, deviceReady := false), DeviceNotReady, [], None)
    ensures ready ==> r.state.deviceReady && r.state.config == config
    ensures ready ==> r.calls == [Configure(ModemOf(config, true))]
    ensures ready ==> (r.err == Success <==> driver(r.calls[0]) >= 0)
    ensures ready && r.err != Success ==> r.err == ConvertZephyrError(driver(r.calls[0]))
    ensures ready ==> (r.state.initialized <==> r.err == Success)
  {
    if !ready then
      Effect(s.(lastError := DeviceNotReady, deviceReady := false), DeviceNotReady, [], None)
    else
      var s1 := s.(deviceReady := true, config := config);
      var (e, calls) := ApplySpec(s1, driver);
      Effect(s1.(lastError := e, initialized := e == Success), e, calls, None)
  }

  /** The caller's side of `send`: a null buffer (`None`), or a buffer and a length within it. */
  predicate ValidSendArgs(data: Option<seq<Byte>>, length: nat) {
    data.Some? ==> length <= |data.value|
  }

  /**
   * `send(data, length)`: refused unless initialised and ready, and for a null buffer or
   * an empty one; otherwise the configuration goes to the driver in transmit mode and then
   * the first `length` bytes (the driver takes a 32-bit length) go out.
   */
  function SendSpec(s: State, data: Option<seq<Byte>>, length: nat, driver: Driver): (r: Effect)
    requires ValidSendArgs(data, length)
    ensures r.state == s.(lastError := r.err) && Reachable(r.err) && r.received == None
    ensures !(s.initialized && s.deviceReady) ==> r.err == DeviceNotReady && r.calls == []
    ensures s.initialized && s.deviceReady && (data.None? || length == 0) ==>
              r.err == InvalidParams && r.calls == []
    ensures s.initialized && s.deviceReady && data.Some? && length > 0 ==>
              1 <= |r.calls| <= 2 && r.calls[0] == Configure(ModemOf(s.config, true))
    ensures |r.calls| == 1 ==> driver(r.calls[0]) < 0 && r.err == ConvertZephyrError(driver(r.calls[0]))
    ensures |r.calls| == 2 ==> driver(r.calls[0]) >= 0 && r.calls[1] == Transmit(data.value[..ToU32(length)])
    ensures |r.calls| == 2 && r.err != Success ==> r.err == ConvertZephyrError(driver(r.calls[1]))
    ensures r.err == Success <==>
              s.initialized && s.deviceReady && data.Some? && length > 0 && |r.calls| == 2
              && driver(r.calls[0]) >= 0 && driver(r.calls[1]) >= 0
  {
    if !s.initialized || !s.deviceReady then Effect(s.(lastError := DeviceNotReady), DeviceNotReady, [], None)
    else if data.None? || length == 0 then Effect(s.(lastError := InvalidParams), InvalidParams, [], None)
    else
      var configure := Configure(ModemOf(s.config, true));
      var ret := driver(configure);
      if ret < 0 then
        var e := ConvertZephyrError(ret);
        Effect(s.(lastError := e), e, [configure], None)
      else
        var transmit := Transmit(data.value[..ToU32(length)]);
        var ret2 := driver(transmit);
        var e := if ret2 < 0 then ConvertZephyrError(ret2) else Success;
        Effect(s.(lastError := e), e, [configure, transmit], None)
  }

  /** The result of `lora_recv` as `recv` reports it, with what it stores through `received_length`. */
  function RecvResult(ret: int): (r: (ErrorCode, Option<U16>))
    ensures ret > 0 ==> r == (Success, Some(ToU16(ret)))
    ensures ret == -EAGAIN || ret == -ETIMEDOUT ==> r == (Timeout, Some(0))
    ensures ret <= 0 && ret != -EAGAIN && ret != -ETIMEDOUT ==> r == (ConvertZephyrError(ret), None)
  {
    if ret > 0 then (Success, Some(ToU16(ret)))
    else if ret == -EAGAIN || ret == -ETIMEDOUT then (Timeout, Some(0))
    else (ConvertZephyrError(ret), None)
  }

  /**
   * `recv(buffer, buffer_size, received_length, rssi, snr, timeout_ms)`: refused unless
   * initialised and ready, and for a null buffer, an empty buffer or a null `received_length`;
   * otherwise the configuration goes to the driver in receive mode and then the receive
   * (the driver takes an 8-bit size) is made.
   */
  function RecvSpec(s: State, hasBuffer: bool, bufferSize: nat, hasLength: bool,
                    wantRssi: bool, wantSnr: bool, timeoutMs: U32, driver: Driver): (r: Effect)
    ensures r.state == s.(lastError := r.err) && Reachable(r.err)
    ensures !(s.initialized && s.deviceReady) ==> r.err == DeviceNotReady && r.calls == [] && r.received == None
    ensures s.initialized && s.deviceReady && !(hasBuffer && bufferSize > 0 && hasLength) ==>
              r.err == InvalidParams && r.calls == [] && r.received == None
    ensures s.initialized && s.deviceReady && hasBuffer && bufferSize > 0 && hasLength ==>
              1 <= |r.calls| <= 2 && r.calls[0] == Configure(ModemOf(s.config, false))
    ensures |r.calls| == 1 ==>
              driver(r.calls[0]) < 0 && r.received == None && r.err == ConvertZephyrError(driver(r.calls[0]))
    ensures |r.calls| == 2 ==>
              driver(r.calls[0]) >= 0 &&
              r.calls[1] == Receive(ToU8(bufferSize), timeoutMs, wantRssi, wantSnr)
              && (r.err, r.received) == RecvResult(driver(r.calls[1]))
  {
    if !s.initialized || !s.deviceReady then Effect(s.(lastError := DeviceNotReady), DeviceNotReady, [], None)
    else if !hasBuffer || bufferSize == 0 || !hasLength then
      Effect(s.(lastError := InvalidParams), InvalidParams, [], None)
    else
      var configure := Configure(ModemOf(s.config, false));
      var ret := driver(configure);
      if ret < 0 then
        var e := ConvertZephyrError(ret);
        Effect(s.(lastError := e), e, [configure], None)
      else
        var receive := Receive(ToU8(bufferSize), timeoutMs, wantRssi, wantSnr);
        var (e, received) := RecvResult(driver(receive));
        Effect(s.(lastError := e), e, [configure, receive], received)
  }

  /** `isDataAvailable`: a placeholder that answers false in every state. */
  function DataAvailableSpec(s: State): (available: bool)
    ensures !available
  {
    // the source returns false both when not ready and when ready
    false
  }

  /** The parameter a setter changes, with its new value. */
  datatype Setting =
    | NewFrequency(frequency: U32)
    | NewTxPower(power: I8)
    | NewBandwidth(bandwidth: Bandwidth)
    | NewDatarate(datarate: Datarate)

  /** The configuration with one parameter replaced. */
  function WithSetting(c: Config, setting: Setting): (r: Config)
    ensures r.preambleLen == c.preambleLen && r.codingRate == c.codingRate
    ensures r.iqInverted == c.iqInverted && r.publicNetwork == c.publicNetwork
  {
    match setting
    case NewFrequency(f) => c.(frequency := f)
    case NewTxPower(p) => c.(txPower := p)
    case NewBandwidth(b) => c.(bandwidth := b)
    case NewDatarate(d) => c.(datarate := d)
  }

  /**
   * `setFrequency`, `setTxPower`, `setBandwidth`, `setDatarate`: refused unless initialised;
   * otherwise the parameter is stored and the configuration applied, and the new value
   * stays even when applying it fails.
   */
  function SetSpec(s: State, setting: Setting, driver: Driver): (r: Effect)
    ensures r.state.lastError == r.err && Reachable(r.err) && r.received == None
    ensures r.state.deviceReady == s.deviceReady && r.state.initialized == s.initialized
    ensures !s.initialized ==> r == Effect(s.(lastError := DeviceNotReady), DeviceNotReady, [], None)
    ensures s.initialized ==> r.state.config == WithSetting(s.config, setting)
    ensures s.initialized ==> (r.err, r.calls) == ApplySpec(r.state, driver)
  {
    if !s.initialized then Effect(s.(lastError := DeviceNotReady), DeviceNotReady, [], None)
    else
      var s1 := s.(config := WithSetting(s.config, setting));
      var (e, calls) := ApplySpec(s1, driver);
      Effect(s1.(lastError := e), e, calls, None)
  }

  // ---------------------------------------------------------------------------
  // Properties of the state machine

  /** A setter changes only its own parameter of the configuration. */
  lemma SetterChangesOnlyItsField(c: Config, setting: Setting)
    ensures setting.NewFrequency? ==> WithSetting(c, setting) == c.(frequency := setting.frequency)
    ensures setting.NewTxPower? ==> WithSetting(c, setting) == c.(txPower := setting.power)
    ensures setting.NewBandwidth? ==> WithSetting(c, setting) == c.(bandwidth := setting.bandwidth)
    ensures setting.NewDatarate? ==> WithSetting(c, setting) == c.(datarate := setting.datarate)
    ensures WithSetting(c, setting).preambleLen == c.preambleLen
    ensures WithSetting(c, setting).codingRate == c.codingRate
    ensures WithSetting(c, setting).iqInverted == c.iqInverted
    ensures WithSetting(c, setting).publicNetwork == c.publicNetwork
  {
  }

  /**
   * After a failed re-`init` on a device that is no longer ready, the object stays
   * initialised with its ready flag down: a setter then stores its value but returns
   * DEVICE_NOT_READY without calling the driver.
   */
  lemma StaleDeviceSetter(s: State, config: Config, setting: Setting, driver: Driver)
    requires s.initialized
    ensures var after := InitSpec(s, config, false, driver).state;
            after.initialized
            && SetSpec(after, setting, driver).err == DeviceNotReady
            && SetSpec(after, setting, driver).calls == []
            && SetSpec(after, setting, driver).state.config == WithSetting(s.config, setting)
  {
  }

  /** A send on a fresh object is refused without touching the driver. */
  lemma SendBeforeInit(data: Option<seq<Byte>>, length: nat, driver: Driver)
    requires ValidSendArgs(data, length)
    ensures SendSpec(INITIAL_STATE, data, length, driver) ==
              Effect(INITIAL_STATE.(lastError := DeviceNotReady), DeviceNotReady, [], None)
  {
  }

  /**
   * A successful `init` enables `send`: a non-empty send configures the radio again with the
   * configuration `init` took, and transmits only when that second configure call succeeds.
   * The two operations may meet different driver answers.
   */
  lemma InitThenSend(s: State, config: Config, data: seq<Byte>, length: nat, initDriver: Driver, sendDriver: Driver)
    requires 0 < length <= |data|
    requires InitSpec(s, config, true, initDriver).err == Success
    ensures var s1 := InitSpec(s, config, true, initDriver).state;
            var r := SendSpec(s1, Some(data), length, sendDriver);
            && r.calls[0] == Configure(ModemOf(config, true))
            && (sendDriver(Configure(ModemOf(config, true))) >= 0 ==>
                  r.calls == [Configure(ModemOf(config, true)), Transmit(data[..ToU32(length)])])
            && (sendDriver(Configure(ModemOf(config, true))) < 0 ==>
                  r.calls == [Configure(ModemOf(config, true))]
                  && r.err == ConvertZephyrError(sendDriver(Configure(ModemOf(config, true)))))
  {
  }

  /** The driver is told a receive size of 0 when the caller's buffer is 256 bytes. */
  lemma RecvSizeWraps(s: State, wantRssi: bool, wantSnr: bool, driver: Driver)
    requires s.initialized && s.deviceReady
    requires driver(Configure(ModemOf(s.config, false))) >= 0
    ensures RecvSpec(s, true, 256, true, wantRssi, wantSnr, RECV_TIMEOUT_MS, driver).calls[1].size == 0
  {
  }

  // ---------------------------------------------------------------------------
  // The class

  /** `class LoraDevice`; the device handle itself is abstract and left out. */
  class LoraDevice {
    /** `m_config` */
    var config: Config
    /** `m_lastError` */
    var lastError: ErrorCode
    /** `m_deviceReady` */
    var deviceReady: bool
    /** `m_initialized` */
    var initialized: bool

    /** The four members as one value. */
    function Snapshot(): State
      reads this
    {
      State(config, lastError, deviceReady, initialized)
    }

    constructor()
      ensures Snapshot() == INITIAL_STATE
    {
      config := DEFAULT_CONFIG;
      lastError := Success;
      deviceReady := false;
      initialized := false;
    }

    /** `applyConfiguration`; changes nothing itself. */
    method ApplyConfiguration(driver: Driver) returns (e: ErrorCode, calls: seq<DriverCall>)
      ensures (e, calls) == ApplySpec(Snapshot(), driver)
    {
      if !deviceReady {
        return DeviceNotReady, [];
      }
      var call := Configure(ModemOf(config, true));
      calls := [call];
      var ret := driver(call);
      if ret < 0 {
        return ConvertZephyrError(ret), calls;
      }
      e := Success;
    }

    /** `init(config)`; `ready` is what `device_is_ready` answers. */
    method Init(newConfig: Config, ready: bool, driver: Driver) returns (e: ErrorCode, calls: seq<DriverCall>)
      modifies this
      ensures Effect(Snapshot(), e, calls, None) == InitSpec(old(Snapshot()), newConfig, ready, driver)
    {
      lastError := Success;
      if !ready {
        lastError := DeviceNotReady;
        deviceReady := false;
        return lastError, [];
      }
      deviceReady := true;
      config := newConfig;
      e, calls := ApplyConfiguration(driver);
      lastError := e;
      if lastError != Success {
        initialized := false;
        return;
      }
      initialized := true;
      e := Success;
    }

    /** `init()`: `init` with the default configuration. */
    method InitDefault(ready: bool, driver: Driver) returns (e: ErrorCode, calls: seq<DriverCall>)
      modifies this
      ensures Effect(Snapshot(), e, calls, None) == InitSpec(old(Snapshot()), DEFAULT_CONFIG, ready, driver)
    {
      e, calls := Init(DEFAULT_CONFIG, ready, driver);
    }

    /** `send(data, length, timeout_ms)`; `None` is a null `data`. The timeout is not used. */
    method Send(data: Option<seq<Byte>>, length: nat, driver: Driver, timeoutMs: U32 := SEND_TIMEOUT_MS)
      returns (e: ErrorCode, calls: seq<DriverCall>)
      requires ValidSendArgs(data, length)
      modifies this
      ensures Effect(Snapshot(), e, calls, None) == SendSpec(old(Snapshot()), data, length, driver)
    {
      if !initialized || !deviceReady {
        lastError := DeviceNotReady;
        return lastError, [];
      }
      if data.None? || length == 0 {
        lastError := InvalidParams;
        return lastError, [];
      }
      var configure := Configure(ModemOf(config, true));
      calls := [configure];
      var ret := driver(configure);
      if ret < 0 {
        lastError := ConvertZephyrError(ret);
        return lastError, calls;
      }
      var transmit := Transmit(data.value[..ToU32(length)]);
      calls := calls + [transmit];
      ret := driver(transmit);
      if ret < 0 {
        lastError := ConvertZephyrError(ret);
        return lastError, calls;
      }
      lastError := Success;
      e := lastError;
    }

    /**
     * `recv(buffer, buffer_size, received_length, rssi, snr, timeout_ms)`. The buffer is
     * given by whether it is null and its size; `lengthSlot` is `None` for a null
     * `received_length` and otherwise the value it points to, and `lengthOut` is that slot
     * afterwards.
     */
    method Recv(hasBuffer: bool, bufferSize: nat, lengthSlot: Option<nat>, driver: Driver,
                wantRssi: bool := false, wantSnr: bool := false, timeoutMs: U32 := RECV_TIMEOUT_MS)
      returns (e: ErrorCode, calls: seq<DriverCall>, lengthOut: Option<nat>)
      modifies this
      ensures var r := RecvSpec(old(Snapshot()), hasBuffer, bufferSize, lengthSlot.Some?, wantRssi, wantSnr, timeoutMs, driver);
              Snapshot() == r.state && e == r.err && calls == r.calls
              && lengthOut == (if r.received.Some? then Some(r.received.value as nat) else lengthSlot)
    {
      lengthOut := lengthSlot;
      if !initialized || !deviceReady {
        lastError := DeviceNotReady;
        return lastError, [], lengthOut;
      }
      if !hasBuffer || bufferSize == 0 || lengthSlot.None? {
        lastError := InvalidParams;
        return lastError, [], lengthOut;
      }
      var configure := Configure(ModemOf(config, false));
      calls := [configure];
      var ret := driver(configure);
      if ret < 0 {
        lastError := ConvertZephyrError(ret);
        return lastError, calls, lengthOut;
      }
      var receive := Receive(ToU8(bufferSize), timeoutMs, wantRssi, wantSnr);
      calls := calls + [receive];
      ret := driver(receive);
      if ret > 0 {
        lengthOut := Some(ToU16(ret));
        lastError := Success;
      } else if ret == -EAGAIN || ret == -ETIMEDOUT {
        lengthOut := Some(0);
        lastError := Timeout;
      } else {
        lastError := ConvertZephyrError(ret);
      }
      e := lastError;
    }

    /** `isDataAvailable`. */
    function IsDataAvailable(): (available: bool)
      reads this
      ensures available == DataAvailableSpec(Snapshot())
    {
      false
    }

    /** `getConfig`. */
    function GetConfig(): (c: Config)
      reads this
      ensures c == Snapshot().config
    {
      config
    }

    /** `getLastError`. */
    function GetLastError(): (e: ErrorCode)
      reads this
      ensures e == Snapshot().lastError
    {
      lastError
    }

    /** `isReady`. */
    function IsReady(): (ready: bool)
      reads this
      ensures ready == Snapshot().deviceReady
    {
      deviceReady
    }

    /** The common body of the four setters. */
    method Set(setting: Setting, driver: Driver) returns (e: ErrorCode, calls: seq<DriverCall>)
      modifies this
      ensures Effect(Snapshot(), e, calls, None) == SetSpec(old(Snapshot()), setting, driver)
    {
      if !initialized {
        lastError := DeviceNotReady;
        return lastError, [];
      }
      config := WithSetting(config, setting);
      e, calls := ApplyConfiguration(driver);
      lastError := e;
    }

    /** `setFrequency`. */
    method SetFrequency(frequency: U32, driver: Driver) returns (e: ErrorCode, calls: seq<DriverCall>)
      modifies this
      ensures Effect(Snapshot(), e, calls, None) == SetSpec(old(Snapshot()), NewFrequency(frequency), driver)
    {
      e, calls := Set(NewFrequency(frequency), driver);
    }

    /** `setTxPower`. */
    method SetTxPower(power: I8, driver: Driver) returns (e: ErrorCode, calls: seq<DriverCall>)
      modifies this
      ensures Effect(Snapshot(), e, calls, None) == SetSpec(old(Snapshot()), NewTxPower(power), driver)
    {
      e, calls := Set(NewTxPower(power), driver);
    }

    /** `setBandwidth`. */
    method SetBandwidth(bandwidth: Bandwidth, driver: Driver) returns (e: ErrorCode, calls: seq<DriverCall>)
      modifies this
      ensures Effect(Snapshot(), e, calls, None) == SetSpec(old(Snapshot()), NewBandwidth(bandwidth), driver)
    {
      e, calls := Set(NewBandwidth(bandwidth), driver);
    }

    /** `setDatarate`. */
    method SetDatarate(datarate: Datarate, driver: Driver) returns (e: ErrorCode, calls: seq<DriverCall>)
      modifies this
      ensures Effect(Snapshot(), e, calls, None) == SetSpec(old(Snapshot()), NewDatarate(datarate), driver)
    {
      e, calls := Set(NewDatarate(datarate), driver);
    }
  }
}
