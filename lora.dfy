/**
 * The egress side of src/lora/lora.c: the fixed modem set-up, the system-init hook and the
 * thread that takes outgoing messages from the bus, encodes them into the static buffer and
 * hands the bytes to the radio. The bus is abstract: each pass of the egress loop is fed
 * the results of its wait, its read and its send as a `Wake`.
 */
module Lora {
  import opened Base
  import opened Errno
  import opened Messages
  import opened Radio
  import opened LoraCbor
  import Device

  /** ZBOR_ENCODE_BUFFER_SIZE (src/lora/lora.h:9), the size of `cbor_buffer`. */
  const ENCODE_BUFFER_SIZE: nat := 256

  /**
   * The modem settings `lora_config_ready_device` writes. It does not write `preamble_len`,
   * so that field keeps whatever the caller's struct held. The other settings are those
   * of `LoraDevice::DEFAULT_CONFIG` in transmit mode.
   */
  function ReadyDeviceConfig(preambleLen: U16): (r: ModemConfig)
    ensures r.tx && r.preambleLen == preambleLen
    ensures r == Device.ModemOf(Device.DEFAULT_CONFIG, true).(preambleLen := preambleLen)
  {
    ModemConfig(
      frequency := 865100000, bandwidth := Bw125kHz, datarate := Sf10, codingRate := Cr4_5,
      preambleLen := preambleLen, txPower := 4, tx := true, iqInverted := false,
      publicNetwork := false)
  }

  // ---------------------------------------------------------------------------
  // One pass of the egress loop

  /** Which channel a notification came from. */
  datatype Channel = LoraOutChannel | OtherChannel

  /**
   * What one pass of the loop is given from outside: the result of `zbus_sub_wait`, the
   * channel it reported, the result of `zbus_chan_read` (which waits at most
   * LORA_CHAN_OUT_READ_TIMEOUT) and the message it read, and what
   * `lora_send` answers.
   */
  datatype Wake = Wake(waitRet: int, channel: Channel, readRet: int, msg: Outgoing, sendRet: int)

  /** How a pass ended; every outcome but `Sent` is logged and the loop goes back to waiting. */
  datatype Outcome =
    | WaitFailed
    | UnexpectedChannel
    | ReadFailed
    | SerializeFailed(code: int)
    | SendFailed(code: int)
    | Sent

  /** A pass's outcome and the bytes it handed to `lora_send`, if it got that far. */
  datatype Pass = Pass(outcome: Outcome, sent: Option<seq<Byte>>)

  /** The pass the loop makes on a wake. */
  function StepSpec(w: Wake): (p: Pass)
    ensures p.sent.Some? ==> Delivers(w)
    ensures p.sent.Some? <==> p.outcome == Sent || p.outcome.SendFailed?
  {
    if w.waitRet != 0 then Pass(WaitFailed, None)
    else if w.channel != LoraOutChannel then Pass(UnexpectedChannel, None)
    else if w.readRet != 0 then Pass(ReadFailed, None)
    else
      match Serialized(w.msg, ENCODE_BUFFER_SIZE)
      case Failed(code) => Pass(SerializeFailed(code), None)
      case Encoded(bytes) =>
        if w.sendRet < 0 then Pass(SendFailed(w.sendRet), Some(bytes)) else Pass(Sent, Some(bytes))
  }

  /** A wake that brings a message with a known tag from the egress channel. */
  predicate Delivers(w: Wake) {
    w.waitRet == 0 && w.channel == LoraOutChannel && w.readRet == 0 && w.msg.Known()
  }

  /** The payloads handed to `lora_send`, in order, over a run of passes. */
  function Transmissions(wakes: seq<Wake>): (r: seq<seq<Byte>>)
    ensures |r| <= |wakes|
  {
    if wakes == [] then []
    else
      var last := StepSpec(wakes[|wakes| - 1]);
      Transmissions(wakes[..|wakes| - 1]) + (if last.sent.Some? then [last.sent.value] else [])
  }

  /** A pass sends exactly the encoding of the message it read, and only for a known tag. */
  lemma StepSendsEncoding(w: Wake)
    ensures StepSpec(w).sent == (if Delivers(w) then Some(Encode(w.msg)) else None)
  {
    if Delivers(w) {
      KnownMessagesFit(w.msg, ENCODE_BUFFER_SIZE);
    } else if w.waitRet == 0 && w.channel == LoraOutChannel && w.readRet == 0 {
      SerializedSucceedsIff(w.msg, ENCODE_BUFFER_SIZE);
    }
  }

  /**
   * Serialising into the 256-byte buffer fails only for a foreign tag, and then with
   * -EINVAL: the prefix always fits and a known message always fits.
   */
  lemma StepSerializeFailure(w: Wake)
    ensures StepSpec(w).outcome.SerializeFailed? <==>
              w.waitRet == 0 && w.channel == LoraOutChannel && w.readRet == 0 && !w.msg.Known()
    ensures StepSpec(w).outcome.SerializeFailed? ==> StepSpec(w).outcome.code == -EINVAL
  {
    if w.msg.Known() {
      KnownMessagesFit(w.msg, ENCODE_BUFFER_SIZE);
    } else {
      SerializedInvalidIff(w.msg, ENCODE_BUFFER_SIZE);
    }
  }

  /** A message goes out and the pass reports success exactly when it is delivered and the radio accepts it. */
  lemma StepSentIff(w: Wake)
    ensures StepSpec(w).outcome == Sent <==> Delivers(w) && w.sendRet >= 0
    ensures StepSpec(w).outcome.SendFailed? <==> Delivers(w) && w.sendRet < 0
  {
    StepSendsEncoding(w);
  }

  /**
   * Passes do not depend on each other: what a run sends is what its two halves send.
   * In particular a message whose send failed is never sent again.
   */
  lemma {:induction false} TransmissionsAppend(a: seq<Wake>, b: seq<Wake>)
    ensures Transmissions(a + b) == Transmissions(a) + Transmissions(b)
    decreases |b|
  {
    if b == [] {
      assert a + b == a;
    } else {
      var b' := b[..|b| - 1];
      assert (a + b)[..|a + b| - 1] == a + b';
      assert (a + b)[|a + b| - 1] == b[|b| - 1];
      TransmissionsAppend(a, b');
    }
  }

  /** One pass sends at most one payload: the message's encoding, if it was delivered. */
  lemma TransmissionsOfOne(w: Wake)
    ensures Transmissions([w]) == (if Delivers(w) then [Encode(w.msg)] else [])
  {
    assert [w][..0] == [];
    StepSendsEncoding(w);
  }

  /** A run sends no more payloads than it has passes, each 42 to 75 bytes long. */
  lemma {:induction false} TransmissionsBounded(wakes: seq<Wake>)
    ensures |Transmissions(wakes)| <= |wakes|
    ensures forall i :: 0 <= i < |Transmissions(wakes)| ==>
              42 <= |Transmissions(wakes)[i]| <= MAX_ENCODED_SIZE
  {
    if wakes != [] {
      var w := wakes[|wakes| - 1];
      TransmissionsBounded(wakes[..|wakes| - 1]);
      StepSendsEncoding(w);
      if Delivers(w) {
        EncodedSize(w.msg);
      }
    }
  }

  // ---------------------------------------------------------------------------
  // The file's static state and its functions

  /** The static variables of lora.c: the configured flag and the encode buffer. */
  class LoraService {
    /** `lora_config_done`. */
    var configDone: bool
    /** `cbor_buffer`. */
    const cborBuffer: array<Byte>

    constructor()
      ensures !configDone
      ensures fresh(cborBuffer) && cborBuffer.Length == ENCODE_BUFFER_SIZE
    {
      configDone := false;
      cborBuffer := new Byte[ENCODE_BUFFER_SIZE](_ => 0);
    }

    /**
     * `lora_config_ready_device`: fills in the fixed settings over the caller's struct
     * `prior`, marks the configuration done and reports true.
     */
    method ConfigReadyDevice(prior: ModemConfig) returns (config: ModemConfig, ok: bool)
      modifies this
      ensures config == ReadyDeviceConfig(prior.preambleLen)
      ensures configDone && ok
    {
      config := prior.(frequency := 865100000, bandwidth := Bw125kHz, datarate := Sf10,
                       codingRate := Cr4_5, iqInverted := false, publicNetwork := false,
                       txPower := 4, tx := true);
      configDone := true;
      ok := true;
    }

    /**
     * `lora_init`: -ENODEV when the radio is not ready; otherwise the fixed settings go to
     * `lora_config`, whose failure gives -EIO. `stack` is what the uninitialised local
     * struct happens to hold. Returns the driver calls made.
     */
    method Init(deviceReady: bool, stack: ModemConfig, driver: Driver) returns (ret: int, calls: seq<DriverCall>)
      modifies this
      ensures !deviceReady ==> ret == -ENODEV && calls == [] && configDone == old(configDone)
      ensures deviceReady ==> configDone && calls == [Configure(ReadyDeviceConfig(stack.preambleLen))]
      ensures deviceReady ==> (ret == 0 <==> driver(calls[0]) >= 0)
      ensures deviceReady && ret != 0 ==> ret == -EIO
    {
      if !deviceReady {
        return -ENODEV, [];
      }
      var config, _ := ConfigReadyDevice(stack);
      calls := [Configure(config)];
      if driver(Configure(config)) < 0 {
        return -EIO, calls;
      }
      ret := 0;
    }

    /** One pass of `lora_out_task`'s loop; the encoder writes into `cbor_buffer`. */
    method Step(w: Wake) returns (p: Pass)
      requires cborBuffer.Length == ENCODE_BUFFER_SIZE
      modifies cborBuffer
      ensures p == StepSpec(w)
    {
      if w.waitRet != 0 {
        return Pass(WaitFailed, None);
      }
      if w.channel != LoraOutChannel {
        return Pass(UnexpectedChannel, None);
      }
      if w.readRet != 0 {
        return Pass(ReadFailed, None);
      }
      var ret, size := Serialize(w.msg, cborBuffer, cborBuffer.Length, 0);
      if ret != 0 {
        return Pass(SerializeFailed(ret), None);
      }
      var payload := cborBuffer[..size];
      if w.sendRet < 0 {
        return Pass(SendFailed(w.sendRet), Some(payload));
      }
      p := Pass(Sent, Some(payload));
    }

    /**
     * `lora_out_task` over the first |wakes| passes of its endless loop: -1 at once unless
     * the radio is ready and configured; otherwise `None` (still running) with the passes
     * made and the payloads sent.
     */
    method Run(deviceReady: bool, wakes: seq<Wake>) returns (ret: Option<int>, passes: seq<Pass>, sent: seq<seq<Byte>>)
      requires cborBuffer.Length == ENCODE_BUFFER_SIZE
      modifies cborBuffer
      ensures !(deviceReady && configDone) ==> ret == Some(-1) && passes == [] && sent == []
      ensures deviceReady && configDone ==> ret == None && |passes| == |wakes|
      ensures deviceReady && configDone ==> forall i :: 0 <= i < |wakes| ==> passes[i] == StepSpec(wakes[i])
      ensures deviceReady && configDone ==> sent == Transmissions(wakes)
    {
      if !deviceReady || !configDone {
        return Some(-1), [], [];
      }
      passes, sent := [], [];
      var i := 0;
      while i < |wakes|
        invariant 0 <= i <= |wakes|
        invariant |passes| == i
        invariant forall k :: 0 <= k < i ==> passes[k] == StepSpec(wakes[k])
        invariant sent == Transmissions(wakes[..i])
      {
        var p := Step(wakes[i]);
        assert wakes[..i + 1][..i] == wakes[..i];
        passes := passes + [p];
        if p.sent.Some? {
          sent := sent + [p.sent.value];
        }
        i := i + 1;
      }
      assert wakes[..i] == wakes;
      ret := None;
    }
  }
}
