# terrascope LoRa egress, modelled in Dafny

terrascope is a Zephyr-based sensor node. Producers publish outgoing messages on a bus.
A thread in `src/lora/lora.c` takes each message, encodes it as CBOR (RFC 8949) into a
256-byte static buffer, and hands the bytes to the LoRa radio. Besides this C path there is
a C++ wrapper class, `LoraDevice`, that keeps the radio's configuration and its last error.
A mock driver stands in for the real radio.

This project models:

- `base.dfy`: the C integer types, a byte type, `Option`, the integer narrowings the
  source relies on, and the errno numbers used.
- `messages.dfy`: the message types of `src/messages/messages.h`. A tag other than 0 or 1 is
  its own case (`UnknownMsg`), because C lets the `type` field hold it and the encoder
  rejects it.
- `cbor.dfy`: the CBOR items the encoder writes (indefinite-length map start, break, short
  text strings, unsigned integers in their shortest head) and their bytes. It also holds a
  decoder for those items, proved to invert the encoding.
- `lora_cbor.dfy`: `cbor_serialize`. The pure function `Serialized` gives the result for
  every message and buffer length: the exact bytes, `-ENOMEM` or `-EINVAL`. The method
  `Serialize` writes into an `array<Byte>` one item at a time and is proved to follow
  `Serialized`. Also here: size bounds, the error cases, a message decoder with
  decode(encode(m)) == m, and the bytes on the wire for two concrete messages.
- `radio.dfy`: the Zephyr LoRa driver interface. It has the modem configuration and the
  driver calls. A driver is any function from a call to the `int` it answers.
- `lora.dfy`: the rest of `lora.c`. The static state (`lora_config_done`, `cbor_buffer`) is
  a class. `lora_config_ready_device` and `lora_init` are methods on it. The loop of `lora_out_task` is
  modelled one pass at a time (`Step`, specified by `StepSpec`). `Run` covers a finite
  number of passes and is specified by `Transmissions`.
- `device.dfy`: `LoraDevice`. Each operation is a pure function from the old state to an
  `Effect`: the new state, the error code returned, the driver calls made in order, and
  what was stored through `received_length`. The class's methods are proved to follow
  these functions.
- `mock.dfy`: the mock driver as a class. Its answers are the function `MockAnswer`. The
  file also has end-to-end facts about `LoraDevice` running on the mock.

Points where the code's behaviour is easy to misread:

- A message with a foreign tag fails with `-EINVAL` only once the outer map header, `"type"`,
  the tag and `"data"` have been written. If that prefix does not fit, the result is `-ENOMEM`.
- `lora_out_task` has no retry. A failed pass drops its message, and the loop waits for the
  next wake.
- The encoder reads the union as the member the tag names and never checks that the payload
  was filled in as that member. A message is modelled as one of its two members or a foreign
  tag, so a payload filled as the other member is not a case of its own. A status outside
  {OK, ERROR} that such a mix-up produces is encoded as is, and is not modelled (see
  "## Left out").

## Model

| member | source | states |
|---|---|---|
| Base.ToU16 | src/lora/LoraDevice.cpp:155 | the `uint16_t` cast keeps the value modulo 2^16 and leaves values below 2^16 unchanged |
| Base.ToU32 | src/lora/LoraDevice.cpp:106 | the length given to `lora_send` is the `size_t` length modulo 2^32 |
| Base.ToU8 | src/lora/LoraDevice.cpp:151-152 | the buffer size given to `lora_recv` is the `size_t` size modulo 2^8 |
| Messages.Status.Ordinal | src/messages/messages.h:13-16 | OK is 0 and ERROR is 1, and no other value occurs |
| Messages.Outgoing.Tag | src/messages/messages.h:7-10 | the tag is 0 exactly for telemetry and 1 exactly for node status; an unknown message carries its own tag value |
| Cbor.Head | src/lora/lora.c:125 | a head is 1 to 5 bytes; its first byte carries the major type and an additional-information value of at most 26 |
| Cbor.HeadBytes | src/lora/lora.c:125 | the head bytes in each width: the argument inline below 24, otherwise 0x18/0x19/0x1A then 1, 2 or 4 big-endian bytes |
| Cbor.HeadIsShortest | src/lora/lora.c:125 | no head that can carry the argument is shorter than the one written (preferred serialisation) |
| Cbor.BigEndian | src/lora/lora.c:125 | an argument is written in exactly the requested number of bytes |
| Cbor.BigEndianRoundTrip | src/lora/lora.c:125 | reading back the big-endian bytes of an argument that fits gives the argument |
| Cbor.FromBigEndian | src/lora/lora.c:125 | a big-endian value of k bytes is below 256^k |
| Cbor.TextBytes | src/lora/lora.c:124 | a key is written as exactly as many bytes as it has letters |
| Cbor.MapStartBytes | src/lora/lora.c:118 | a map header is the single byte 0xBF, the indefinite-length form |
| Cbor.BreakBytes | src/lora/lora.c:175 | a map ends with the single break byte 0xFF |
| Cbor.ItemBytes | src/lora/lora.c:118-179 | every item takes at least one byte |
| Cbor.Concat | src/lora/lora.c:118-179 | a run of items takes at least one byte per item |
| Cbor.ConcatAppend | src/lora/lora.c:118-179 | the bytes of two runs of items written one after the other are the two byte strings joined |
| Cbor.ConcatSingle | src/lora/lora.c:118-179 | one item alone is written as that item's bytes |
| Cbor.DecodeItem | src/lora/lora.c:118-179 | the item decoder consumes at least one byte and no more than it has, and yields only well-formed items |
| Cbor.HeadRoundTrip | src/lora/lora.c:125 | decoding a head followed by anything gives back its major type and argument, and how many bytes it used |
| Cbor.WideArgumentRoundTrip | src/lora/lora.c:125 | the same for the heads whose argument follows the first byte |
| Cbor.TextRoundTrip | src/lora/lora.c:124 | decoding a key's bytes gives back the key |
| Cbor.ItemRoundTrip | src/lora/lora.c:118-179 | decoding one item's bytes followed by anything gives back that item and its length |
| Cbor.DecodeConcat | src/lora/lora.c:118-179 | decoding the bytes of any run of well-formed items gives back exactly those items |
| LoraCbor.Field | src/lora/lora.c:139-146 | a key/value pair is two well-formed items |
| LoraCbor.FieldBytes | src/lora/lora.c:139-140 | a pair is the key's bytes and then the value's head, 1 + letters + head length in all |
| LoraCbor.PrefixItems | src/lora/lora.c:118-134 | the calls before the tag is examined write four items, each one the encoder can write |
| LoraCbor.TelemetryItems | src/lora/lora.c:138-147 | the nested telemetry map is ten writable items: header, four key/value pairs, break |
| LoraCbor.NodeStatusItems | src/lora/lora.c:155-163 | the nested node-status map is eight writable items: header, three key/value pairs, break |
| LoraCbor.BodyItems | src/lora/lora.c:136-168 | the nested map the tag selects is a run of items, each one the encoder can write |
| LoraCbor.MessageItems | src/lora/lora.c:118-179 | a known message is 13 to 15 items: it starts with the four prefix items and ends with the outer break |
| LoraCbor.Encode | src/lora/lora.c:118-181 | the bytes of a known message open the outer map with 0xBF and close it with 0xFF |
| LoraCbor.Serialized | src/lora/lora.c:112-184 | a success carries the encoding of a known message, no longer than the buffer (the failure codes are stated by `SerializedFailureCodes` and `SerializedInvalidIff`) |
| LoraCbor.PrefixBytes | src/lora/lora.c:118-134 | every encoding starts with the map header, `"type"`, the tag and `"data"` |
| LoraCbor.PrefixLength | src/lora/lora.c:118-134 | that prefix is 11 bytes plus the tag's head |
| LoraCbor.TelemetryBytes | src/lora/lora.c:138-147 | the telemetry map is its header, the four pairs in the order timestamp, temperature, humidity, pressure, and a break |
| LoraCbor.NodeStatusBytes | src/lora/lora.c:155-163 | the node-status map is its header, the pairs timestamp, uptime and status (as its ordinal), and a break |
| LoraCbor.TelemetryLength | src/lora/lora.c:138-147 | the telemetry map takes 46 to 62 bytes |
| LoraCbor.NodeStatusLength | src/lora/lora.c:155-163 | the node-status map takes 29 to 37 bytes |
| LoraCbor.EncodeSplits | src/lora/lora.c:118-179 | an encoding is the prefix, then the nested map, then the outer break |
| LoraCbor.EncodedSize | src/lora/lora.c:118-179 | every message with a known tag encodes to 42 to 75 bytes |
| LoraCbor.SerializedSucceedsIff | src/lora/lora.c:118-183 | the encoder succeeds exactly for a known tag whose whole encoding fits; the bytes are then that encoding and no longer than the buffer |
| LoraCbor.SerializedInvalidIff | src/lora/lora.c:118-172 | `-EINVAL` comes exactly for a foreign tag whose prefix fits |
| LoraCbor.SerializedFailureCodes | src/lora/lora.c:118-179 | every failure is `-ENOMEM` or `-EINVAL` |
| LoraCbor.OneByteShortFails | src/lora/lora.c:138-179 | a buffer one byte shorter than the encoding gives `-ENOMEM` |
| LoraCbor.KnownMessagesFit | src/lora/lora.c:16-90 | any buffer of 75 bytes or more, the 256-byte `cbor_buffer` among them, holds every known message |
| LoraCbor.TelemetryRead | src/lora/lora.c:137-151 | the telemetry items are read back as the same four fields |
| LoraCbor.NodeStatusRead | src/lora/lora.c:154-168 | the node-status items are read back as the same three fields |
| LoraCbor.MessageItemsShape | src/lora/lora.c:118-179 | a message's items are the map header, `"type"`, the tag, `"data"`, the nested map and a break |
| LoraCbor.MessageOfItems | src/lora/lora.c:124-167 | a message's items are read back as the message |
| LoraCbor.DecodeEncode | src/lora/lora.c:124-167 | decoding the encoding of a known message gives back its tag and every field |
| LoraCbor.EncodeInjective | src/lora/lora.c:124-167 | two known messages with the same encoding are equal |
| LoraCbor.KeyItemBytes | src/lora/lora.c:124 | a key under 24 letters is the header byte 0x60 + length and then its letters |
| LoraCbor.PrefixWire | src/lora/lora.c:118-134 | the prefix on the wire is 0xBF, 0x64 "type", the tag byte, 0x64 "data" |
| LoraCbor.TelemetryWire | src/lora/lora.c:138-147 | the telemetry map on the wire, byte for byte (0xBF, the headed keys and values, 0xFF) |
| LoraCbor.NodeStatusWire | src/lora/lora.c:155-163 | the node-status map on the wire, byte for byte |
| LoraCbor.TelemetryFrame | src/lora/lora.c:118-179 | a whole telemetry message on the wire |
| LoraCbor.NodeStatusFrame | src/lora/lora.c:118-179 | a whole node-status message on the wire |
| LoraCbor.TelemetryScenarioHeads | src/lora/lora.c:140-146 | the heads of 100, 2500, 6000 and 101300 are 0x18 64, 0x19 09 C4, 0x19 17 70 and 0x1A 00 01 8B B4 |
| LoraCbor.TelemetryVector | src/lora/lora.c:118-179 | the exact bytes sent for the telemetry reading {100, 2500, 6000, 101300} |
| LoraCbor.NodeStatusVector | src/lora/lora.c:118-179 | the exact bytes sent for the node status {50, 3600, OK} |
| LoraCbor.CopyInto | src/lora/lora.c:118-179 | writing bytes at a position changes just those cells of the buffer |
| LoraCbor.PutItems | src/lora/lora.c:118-179 | putting items succeeds exactly when all their bytes fit; it writes exactly those bytes and leaves what lies before them and after the last byte written alone |
| LoraCbor.PutBody | src/lora/lora.c:136-179 | after the prefix of a known message, the nested map and the outer break go in exactly when the whole encoding fits; the buffer then starts with the encoding and nothing after it changed |
| LoraCbor.Serialize | src/lora/lora.c:112-184 | `cbor_serialize` returns 0 exactly when `Serialized` succeeds, and then the buffer starts with the encoding, the size is its length (at most `buf_len`) and no byte after it changed; on failure it returns the code `Serialized` gives and leaves the size as it was |
| Lora.ReadyDeviceConfig | src/lora/lora.c:40-48 | the fixed settings are `LoraDevice`'s default configuration in transmit mode, with the caller's preamble length |
| Lora.StepSpec | src/lora/lora.c:70-107 | a pass hands bytes to `lora_send` only for a delivered message with a known tag, and exactly when it ends sent or with a failed send |
| Lora.Transmissions | src/lora/lora.c:70-108 | a run of passes sends at most one payload per pass |
| Lora.StepSendsEncoding | src/lora/lora.c:77-98 | a pass hands `lora_send` exactly the encoding of the message it read, and only when the wait and read succeeded on the egress channel and the tag is known |
| Lora.StepSerializeFailure | src/lora/lora.c:90-94 | in the egress loop, serialising fails exactly for a foreign tag, and then with `-EINVAL` |
| Lora.StepSentIff | src/lora/lora.c:98-104 | a pass succeeds exactly when the message is delivered and `lora_send` returns a non-negative value; a negative return drops it |
| Lora.TransmissionsAppend | src/lora/lora.c:70-108 | what a run sends is what its two halves send: no pass depends on an earlier one, so nothing is retried |
| Lora.TransmissionsOfOne | src/lora/lora.c:70-108 | one pass sends at most one payload, the encoding of a delivered message |
| Lora.TransmissionsBounded | src/lora/lora.c:70-108 | a run sends no more payloads than it has passes, each 42 to 75 bytes long |
| Lora.LoraService.constructor | src/lora/lora.c:15-16 | the configured flag starts false and the buffer has 256 bytes |
| Lora.LoraService.ConfigReadyDevice | src/lora/lora.c:40-51 | writes 865100000 Hz, 125 kHz, SF10, CR 4/5, 4 dBm, transmit mode, IQ not inverted, private network; keeps the caller's preamble length; sets the configured flag; reports true |
| Lora.LoraService.Init | src/lora/lora.c:19-36 | `-ENODEV` with no driver call when the radio is not ready; otherwise one configuration call with the fixed settings, then 0, or `-EIO` when the driver returns a negative value |
| Lora.LoraService.Step | src/lora/lora.c:71-107 | one pass of the loop behaves as `StepSpec` |
| Lora.LoraService.Run | src/lora/lora.c:53-110 | -1 at once, with nothing sent, unless the radio is ready and configured; otherwise every pass behaves as `StepSpec` and the payloads sent are `Transmissions` |
| Device.ErrorCode.Value | src/lora/LoraDevice.h:34-44 | the codes are stored as values 0 to 7, and SUCCESS is 0 |
| Device.ErrorValuesDistinct | src/lora/LoraDevice.h:34-44 | the eight codes have distinct values |
| Device.ModemOf | src/lora/LoraDevice.cpp:245-255 | the modem configuration carries every field of `Config`, with the transmit flag as asked |
| Device.ConvertZephyrError | src/lora/LoraDevice.cpp:266-279 | 0 gives SUCCESS, `-EBUSY` BUSY, `-ETIMEDOUT` TIMEOUT, `-EINVAL` INVALID_PARAMS, and every other value CONFIG_FAILED |
| Device.ApplySpec | src/lora/LoraDevice.cpp:242-264 | DEVICE_NOT_READY with no driver call when the device is not ready; otherwise one configuration call in transmit mode, SUCCESS exactly when it returns non-negative, and its converted error otherwise |
| Device.InitSpec | src/lora/LoraDevice.cpp:52-79 | not ready: only the ready flag (cleared) and the last error change; ready: the configuration is taken, one call is made, and the object is initialised exactly when it succeeds; a failure returns the driver's converted error; the last error is the returned code |
| Device.SendSpec | src/lora/LoraDevice.cpp:81-116 | refused without driver calls unless initialised and ready, and for a null or empty buffer; otherwise a transmit-mode configuration call, then the first `length` bytes; SUCCESS exactly when both calls return non-negative; only the last error changes |
| Device.RecvResult | src/lora/LoraDevice.cpp:154-167 | a positive return gives SUCCESS and stores its low 16 bits; `-EAGAIN` or `-ETIMEDOUT` gives TIMEOUT and stores 0; anything else is converted and stores nothing |
| Device.RecvSpec | src/lora/LoraDevice.cpp:118-168 | refused without driver calls unless initialised and ready, and for a null or empty buffer or a null `received_length`; otherwise a receive-mode configuration call and then a receive of the buffer size taken modulo 256; only the last error changes |
| Device.DataAvailableSpec | src/lora/LoraDevice.cpp:170-176 | no data is ever reported available |
| Device.SetSpec | src/lora/LoraDevice.cpp:178-239 | DEVICE_NOT_READY with nothing else changed unless initialised; otherwise the new value is stored and kept, then the configuration is applied and its result returned and recorded |
| Device.SetterChangesOnlyItsField | src/lora/LoraDevice.cpp:178-239 | each setter replaces only its own field of the configuration |
| Device.WithSetting | src/lora/LoraDevice.cpp:178-239 | no setter touches the preamble length, the coding rate, IQ inversion or the network flag |
| Device.StaleDeviceSetter | src/lora/LoraDevice.cpp:52-243 | after `init` finds the device not ready, an object initialised earlier stays initialised; a setter then stores its value but returns DEVICE_NOT_READY without a driver call |
| Device.SendBeforeInit | src/lora/LoraDevice.cpp:40-86 | on a new object `send` returns DEVICE_NOT_READY without a driver call |
| Device.InitThenSend | src/lora/LoraDevice.cpp:52-116 | after a successful `init`, a non-empty send first configures the radio again with the configuration `init` took; if that call returns a non-negative value it sends the payload, otherwise it returns the call's converted error and transmits nothing |
| Device.RecvSizeWraps | src/lora/LoraDevice.cpp:151-152 | a 256-byte receive buffer reaches the driver as size 0 |
| Device.LoraDevice.constructor | src/lora/LoraDevice.cpp:40-48 | a new object has the default configuration, SUCCESS as last error, and both flags false |
| Device.LoraDevice.ApplyConfiguration | src/lora/LoraDevice.cpp:242-264 | behaves as `ApplySpec` and changes nothing |
| Device.LoraDevice.Init | src/lora/LoraDevice.cpp:52-79 | behaves as `InitSpec` |
| Device.LoraDevice.InitDefault | src/lora/LoraDevice.cpp:50 | behaves as `InitSpec` with `DEFAULT_CONFIG` |
| Device.LoraDevice.Send | src/lora/LoraDevice.cpp:81-116 | behaves as `SendSpec`; the timeout defaults to 5000 ms and is not used |
| Device.LoraDevice.Recv | src/lora/LoraDevice.cpp:118-168 | behaves as `RecvSpec`; the length slot gets the stored value or keeps its old one; rssi and snr default to not asked and the timeout to 10000 ms |
| Device.LoraDevice.IsDataAvailable | src/lora/LoraDevice.cpp:170-176 | always false |
| Device.LoraDevice.GetConfig | src/lora/LoraDevice.h:69 | returns the configuration member and reads nothing else |
| Device.LoraDevice.GetLastError | src/lora/LoraDevice.h:78 | returns the last-error member |
| Device.LoraDevice.IsReady | src/lora/LoraDevice.h:81 | returns the device-ready member |
| Device.LoraDevice.Set | src/lora/LoraDevice.cpp:178-239 | the common body of the four setters behaves as `SetSpec` |
| Device.LoraDevice.SetFrequency | src/lora/LoraDevice.cpp:178-192 | behaves as `SetSpec` for the frequency |
| Device.LoraDevice.SetTxPower | src/lora/LoraDevice.cpp:194-208 | behaves as `SetSpec` for the transmit power |
| Device.LoraDevice.SetBandwidth | src/lora/LoraDevice.cpp:210-225 | behaves as `SetSpec` for the bandwidth |
| Device.LoraDevice.SetDatarate | src/lora/LoraDevice.cpp:227-239 | behaves as `SetSpec` for the data rate |
| LoraMock.MockAnswer | src/drivers/lora_mock.c:13-35 | the mock answers `-ENOTSUP` exactly to a receive and 0 to every other call |
| LoraMock.MockLora.constructor | src/drivers/lora_mock.c:8-11 | the device data starts unconfigured |
| LoraMock.MockLora.Config | src/drivers/lora_mock.c:13-24 | stores the whole configuration, sets the configured flag, returns 0 |
| LoraMock.MockLora.Send | src/drivers/lora_mock.c:26-30 | returns 0 for any payload and changes nothing |
| LoraMock.MockLora.Recv | src/drivers/lora_mock.c:32-35 | returns `-ENOTSUP` and changes nothing |
| LoraMock.MockLora.TestCw | src/drivers/lora_mock.c:36-39 | returns 0 and changes nothing |
| LoraMock.MockLora.Init | src/drivers/lora_mock.c:48-51 | returns 0 and changes nothing |
| LoraMock.MockLora.Handle | src/drivers/lora_mock.c:41-46 | a call through the API table gets the mock's answer; only a configuration call changes the device data |
| LoraMock.MockInit | src/drivers/lora_mock.c:23 | on the mock, `init` succeeds exactly when the device is ready, and then leaves the object initialised with the given configuration |
| LoraMock.MockSend | src/drivers/lora_mock.c:23-29 | on the mock, a non-empty send on an initialised, ready object succeeds after a configuration call and a transmit of the payload |
| LoraMock.MockRecv | src/drivers/lora_mock.c:34 | on the mock, every well-formed `recv` returns CONFIG_FAILED and stores no length |
| LoraMock.MockSet | src/drivers/lora_mock.c:23 | on the mock, every setter on an initialised, ready object succeeds and stores its value |
| LoraMock.MockSession | src/drivers/lora_mock.c:13-35 | a new object on the mock: `init()` and a send succeed, a receive gives CONFIG_FAILED and leaves the length slot alone, and the mock ends holding the receive-mode default configuration |

## Left out

- The bus (zbus) and the packet ring buffer (mpsc_pbuf) are Zephyr library code. Each pass of the egress loop takes the results of its wait, read and send as inputs (`Wake`) instead.
- The egress loop never ends. `Run` covers any finite number of passes. Blocking, thread priorities and concurrency are not modelled.
- zcbor's internals (its state struct, backups and `zcbor_peek_error`) are left out. The bytes follow RFC 8949 for a build without canonical encoding, so maps use the indefinite-length form (0xBF … 0xFF). That form is built into the model: `Item.MapStart` carries no entry count, `MapStartBytes` and `BreakBytes` write 0xBF and 0xFF, the decoder reads only that form, and the byte-level lemmas and size bounds assume it. A definite-length (canonical) build is not modelled.
- LoraCbor.Serialize: on failure, the model says nothing about which bytes were written below `buf_len`. The source leaves partial output there and its callers ignore it.
- Logging, hexdumps, `SYS_INIT`, `K_THREAD_DEFINE`, the device tree and the asynchronous receive callback (which only logs) are left out.
- Driver answers are abstract. `device_is_ready` is a boolean argument, and every other driver call is answered by a `Driver` function. The numeric values of Zephyr's bandwidth, data-rate and coding-rate enumerations are not modelled.
- The bytes `lora_recv` writes into the caller's buffer, and the rssi and snr it reports, are not modelled. Only whether they were asked for reaches the driver call.
- `send` copies `Config` into `lora_modem_config` with `memcpy`, which depends on memory layout. It is modelled as the current configuration with the transmit flag set.
- The mock's static device data starts as zeroes. The constructor takes any initial configuration instead, because a zero data rate names no `Datarate`.
- Status values other than OK and ERROR, and enumeration values the C types could hold outside their enumerators, are not modelled. Only the message tag keeps out-of-range values.
- `src/main.c`, `src/main.cpp` and `src/sensors/sensor_manager.c` (threads, timers, random readings) are not part of this model. The second, conflicting message declarations in `src/lora/lora.h` are not part of it either.
- Lora.LoraService.ConfigReadyDevice: the struct in `lora_init` is an uninitialised local, and `lora_config_ready_device` never writes its `preamble_len`. The model keeps whatever value the caller's struct held.
