// Identifiers and messages of the E2AP and E42 procedures that the model keeps.
// A message keeps what the tables are keyed by; payloads are numbers.
module E2ap {
  const TWO_16 := 0x1_0000
  const TWO_32 := 0x1_0000_0000

  type U16 = x: int | 0 <= x < TWO_16
  type U32 = x: int | 0 <= x < TWO_32

  /** The conversion C applies when an integer is stored in a `uint16_t`. */
  function Trunc16(x: int): U16 {
    x % TWO_16
  }

  /** The length of an array of connected nodes is kept in a uint8_t. */
  const MAX_NODES := 255

  /** ric_gen_id_t: the request number is 32 bits wide, the other two 16. */
  datatype RicGenId = RicGenId(req: U32, inst: U16, func: U16)

  /** xapp_ric_id_t: an xApp's own id together with the xApp it belongs to. */
  datatype XappRicId = XappRicId(ric: RicGenId, xapp: U16)

  datatype NodeType =
    | ENB | NgENB | GNB
    | ENBCu | NgENBCu | GNBCu
    | ENBDu | GNBDu
    | MbmsSta

  datatype Plmn = Plmn(mcc: U16, mnc: U16, digits: U16)

  datatype Option<+T> = None | Some(value: T)

  /** global_e2_node_id_t; `cuDu` is the optional CU/DU identifier. */
  datatype NodeId = NodeId(typ: NodeType, plmn: Plmn, nb: U32, cuDu: Option<nat>)

  datatype ReqKind = Subscribe | Delete | Control

  datatype AnsKind =
    | SubResponse
    | Indication(payload: int)
    | DelResponse
    | ControlAck

  /** xApp -> iApp. */
  datatype E42Req =
    | E42Subscribe(xapp: U16, node: NodeId, ric: RicGenId)
    | E42Delete(xapp: U16, ric: RicGenId)
    | E42Control(xapp: U16, node: NodeId, ric: RicGenId)
  {
    function Kind(): ReqKind {
      match this
      case E42Subscribe(_, _, _) => Subscribe
      case E42Delete(_, _) => Delete
      case E42Control(_, _, _) => Control
    }

    function Who(): XappRicId {
      XappRicId(ric, xapp)
    }
  }

  /** RIC -> E2 node. */
  datatype E2Req = E2Req(kind: ReqKind, ric: RicGenId)

  /** E2 node -> RIC, and, with the id translated back, iApp -> xApp. */
  datatype E2Ans = E2Ans(kind: AnsKind, ric: RicGenId)

  /** The request that an answer closes; an indication closes none. */
  function Closes(k: AnsKind): Option<ReqKind> {
    match k
    case SubResponse => Some(Subscribe)
    case DelResponse => Some(Delete)
    case ControlAck => Some(Control)
    case Indication(_) => None
  }

  /** pending_event_ric_t, and the (kind, id) part of pending_event_xapp_t. */
  datatype PendEvent = PendEvent(kind: ReqKind, ric: RicGenId)

  type Fd = int
}
