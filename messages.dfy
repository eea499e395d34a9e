/** The messages that travel from the producers to the radio (src/messages/messages.h). */
module Messages {
  import opened Base

  /** `ts_msg_type_t`: the tags of the two message kinds. */
  const TELEMETRY_TAG: U32 := 0
  const NODE_STATUS_TAG: U32 := 1

  /** `ts_status_t`. */
  datatype Status = Ok | Error {
    /** The enumerator's value, which is what goes on the wire. */
    function Ordinal(): (n: U32)
      ensures n < 2
      ensures n == 0 <==> this == Ok
    {
      match this
      case Ok => 0
      case Error => 1
    }
  }

  /** `struct ts_msg_telemetry`, fields in declaration order. */
  datatype Telemetry = Telemetry(timestamp: U32, temperature: U32, humidity: U32, pressure: U32)

  /** `struct ts_msg_node_status`, fields in declaration order. */
  datatype NodeStatus = NodeStatus(timestamp: U32, uptime: U32, status: Status)

  /** A tag value that C lets the `type` field hold although no enumerator names it. */
  type ForeignTag = t: U32 | t > 1 witness 2

  /**
   * `struct ts_msg_lora_outgoing`: a tag and a union of which only the member the tag
   * names is meaningful. The two known tags carry their member; any other tag carries
   * nothing the encoder looks at, so only its (uint32_t) value is kept.
   */
  datatype Outgoing =
    | TelemetryMsg(telemetry: Telemetry)
    | NodeStatusMsg(nodeStatus: NodeStatus)
    | UnknownMsg(foreignTag: ForeignTag)
  {
    /** The `type` field as the encoder's `zcbor_uint32_put` sees it. */
    function Tag(): (t: U32)
      ensures t == TELEMETRY_TAG <==> TelemetryMsg?
      ensures t == NODE_STATUS_TAG <==> NodeStatusMsg?
      ensures UnknownMsg? ==> t == foreignTag
    {
      match this
      case TelemetryMsg(_) => TELEMETRY_TAG
      case NodeStatusMsg(_) => NODE_STATUS_TAG
      case UnknownMsg(t) => t
    }

    predicate Known() {
      !UnknownMsg?
    }
  }
}
