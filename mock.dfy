/**
 * The mock LoRa driver (src/drivers/lora_mock.c): it keeps the last configuration it was
 * given and answers every call with a constant. Used as the driver of `LoraDevice`, it
 * makes `init`, `send` and the setters succeed and `recv` fail.
 */
module LoraMock {
  import opened Base
  import opened Errno
  import opened Radio
  import opened Device

  /** The mock's answer to each driver call: -ENOTSUP to a receive, 0 to everything else. */
  function MockAnswer(call: DriverCall): (ret: int)
    ensures ret == -ENOTSUP <==> call.Receive?
    ensures ret == 0 <==> !call.Receive?
  {
    match call
    case Configure(_) => 0
    case Transmit(_) => 0
    case Receive(_, _, _, _) => -ENOTSUP
  }

  /** `struct lora_mock_data`, the mock device's data, with the driver API on it. */
  class MockLora {
    var config: ModemConfig
    var configured: bool

    constructor(initial: ModemConfig)
      ensures config == initial && !configured
    {
      config := initial;
      configured := false;
    }

    /** `lora_mock_config`: stores a copy of the whole configuration and succeeds. */
    method Config(c: ModemConfig) returns (ret: int)
      modifies this
      ensures config == c && configured
      ensures ret == 0
    {
      config := c;
      configured := true;
      ret := 0;
    }

    /** `lora_mock_send`: accepts any payload of any length. */
    method Send(data: seq<Byte>, dataLen: U32) returns (ret: int)
      ensures ret == 0
    {
      ret := 0;
    }

    /** `lora_mock_recv`: never receives. */
    method Recv(size: U8, timeoutMs: U32, wantRssi: bool, wantSnr: bool) returns (ret: int)
      ensures ret == -ENOTSUP
    {
      ret := -ENOTSUP;
    }

    /** `lora_mock_test_cw`. */
    method TestCw(frequency: U32, txPower: I8, duration: U16) returns (ret: int)
      ensures ret == 0
    {
      ret := 0;
    }

    /** `lora_mock_init`. */
    method Init() returns (ret: int)
      ensures ret == 0
    {
      ret := 0;
    }

    /** A call through the driver API table `lora_mock_api`. */
    method Handle(call: DriverCall) returns (ret: int)
      modifies this
      ensures ret == MockAnswer(call)
      ensures call.Configure? ==> config == call.config && configured
      ensures !call.Configure? ==> config == old(config) && configured == old(configured)
    {
      match call
      case Configure(c) => ret := Config(c);
      case Transmit(payload) => ret := Send(payload, ToU32(|payload|));
      case Receive(size, timeoutMs, wantRssi, wantSnr) => ret := Recv(size, timeoutMs, wantRssi, wantSnr);
    }
  }

  // ---------------------------------------------------------------------------
  // LoraDevice on the mock

  /** With the mock, `init` succeeds exactly when the device is ready. */
  lemma MockInit(s: State, config: Config, ready: bool)
    ensures InitSpec(s, config, ready, MockAnswer).err == Success <==> ready
    ensures ready ==> InitSpec(s, config, ready, MockAnswer) ==
                        Effect(State(config, Success, true, true), Success,
                               [Configure(ModemOf(config, true))], None)
  {
  }

  /** With the mock, a send of a non-empty payload on an initialised, ready device succeeds. */
  lemma MockSend(s: State, data: seq<Byte>, length: nat)
    requires s.initialized && s.deviceReady
    requires 0 < length <= |data|
    ensures SendSpec(s, Some(data), length, MockAnswer) ==
              Effect(s.(lastError := Success), Success,
                     [Configure(ModemOf(s.config, true)), Transmit(data[..ToU32(length)])], None)
  {
  }

  /** With the mock, every well-formed `recv` reports CONFIG_FAILED and stores no length. */
  lemma MockRecv(s: State, bufferSize: nat, wantRssi: bool, wantSnr: bool, timeoutMs: U32)
    requires s.initialized && s.deviceReady && bufferSize > 0
    ensures RecvSpec(s, true, bufferSize, true, wantRssi, wantSnr, timeoutMs, MockAnswer).err == ConfigFailed
    ensures RecvSpec(s, true, bufferSize, true, wantRssi, wantSnr, timeoutMs, MockAnswer).received == None
  {
    assert ConvertZephyrError(-ENOTSUP) == ConfigFailed;
  }

  /** With the mock, every setter on an initialised, ready device succeeds. */
  lemma MockSet(s: State, setting: Setting)
    requires s.initialized && s.deviceReady
    ensures SetSpec(s, setting, MockAnswer).err == Success
    ensures SetSpec(s, setting, MockAnswer).state.config == WithSetting(s.config, setting)
  {
  }

  /**
   * A session on a new object over the mock: `init()`, a send of `data`, then a receive
   * into a 64-byte buffer. The mock ends up holding the receive-mode configuration.
   */
  method MockSession(data: seq<Byte>, stale: nat) returns (initErr: ErrorCode, sendErr: ErrorCode,
                                                          recvErr: ErrorCode, length: Option<nat>,
                                                          radio: ModemConfig)
    requires 0 < |data| < 0x1_0000_0000
    ensures initErr == Success && sendErr == Success && recvErr == ConfigFailed
    ensures length == Some(stale)
    ensures radio == ModemOf(DEFAULT_CONFIG, false)
  {
    var mock := new MockLora(ModemOf(DEFAULT_CONFIG, true));
    var device := new LoraDevice();
    var calls;
    initErr, calls := device.InitDefault(true, MockAnswer);
    var _ := mock.Handle(calls[0]);
    sendErr, calls := device.Send(Some(data), |data|, MockAnswer);
    var _ := mock.Handle(calls[0]);
    var _ := mock.Handle(calls[1]);
    recvErr, calls, length := device.Recv(true, 64, Some(stale), MockAnswer);
    assert ConvertZephyrError(-ENOTSUP) == ConfigFailed;
    var _ := mock.Handle(calls[0]);
    var _ := mock.Handle(calls[1]);
    radio := mock.config;
  }
}
