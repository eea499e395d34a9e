/**
 * The part of Zephyr's LoRa driver interface the firmware uses: the modem configuration
 * it hands to `lora_config`, and the driver calls themselves. A driver is abstract: it
 * answers each call with an arbitrary `int`, given here as a function of the call.
 */
module Radio {
  import opened Base

  /** `enum lora_signal_bandwidth`. */
  datatype Bandwidth = Bw125kHz | Bw250kHz | Bw500kHz

  /** `enum lora_datarate`: the spreading factor. */
  datatype Datarate = Sf6 | Sf7 | Sf8 | Sf9 | Sf10 | Sf11 | Sf12

  /** `enum lora_coding_rate`. */
  datatype CodingRate = Cr4_5 | Cr4_6 | Cr4_7 | Cr4_8

  /** `struct lora_modem_config`. */
  datatype ModemConfig = ModemConfig(
    frequency: U32,
    bandwidth: Bandwidth,
    datarate: Datarate,
    codingRate: CodingRate,
    preambleLen: U16,
    txPower: I8,
    tx: bool,
    iqInverted: bool,
    publicNetwork: bool)

  /** One call into the driver, with the arguments the driver sees. */
  datatype DriverCall =
    | Configure(config: ModemConfig)
      /** `lora_send(dev, data, len)`: the `len` bytes from `data`. */
    | Transmit(payload: seq<Byte>)
      /** `lora_recv(dev, buf, size, timeout, rssi, snr)`; whether rssi/snr were asked for. */
    | Receive(size: U8, timeoutMs: U32, wantRssi: bool, wantSnr: bool)

  /** What a driver answers to each call (`lora_config`, `lora_send`, `lora_recv` return `int`). */
  type Driver = DriverCall -> int
}
