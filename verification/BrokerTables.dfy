/** The broker's action tables (src/action.c) and the states and message kinds they are indexed by. */
module BrokerTables {

  datatype State =
    | Ready | XCallRequest | YCallRequest | DataTransfer | CallCollision
    | XClearRequest | YClearRequest | XResetRequest | YResetRequest

  datatype Kind =
    | Data | RR | RNR | CallRequest | CallAccepted | ClearRequest | ClearConfirmation
    | ResetRequest | ResetConfirmation | Connect | ConnectIndication | Disconnect
    | DisconnectIndication | Diagnostic | DirectoryRequest | Directory

  datatype Action =
    | Unspecified | Discard | Reset | Clear
    | DoDisconnect | DoCallRequest | DoCallAccepted | DoCallCollision | DoClearRequest | DoClearConfirmation
    | DoData | DoRR | DoRNR | DoReset | DoResetConfirmation

  /** Column `k` of a table row. */
  function Column(k: Kind, data: Action, rr: Action, rnr: Action, callRequest: Action, callAccepted: Action,
                  clearRequest: Action, clearConfirmation: Action, resetRequest: Action,
                  resetConfirmation: Action, connect: Action, connectIndication: Action, disconnect: Action,
                  disconnectIndication: Action, c13: Action, c14: Action, c15: Action): Action
  {
    match k
    case Data => data
    case RR => rr
    case RNR => rnr
    case CallRequest => callRequest
    case CallAccepted => callAccepted
    case ClearRequest => clearRequest
    case ClearConfirmation => clearConfirmation
    case ResetRequest => resetRequest
    case ResetConfirmation => resetConfirmation
    case Connect => connect
    case ConnectIndication => connectIndication
    case Disconnect => disconnect
    case DisconnectIndication => disconnectIndication
    case Diagnostic => c13
    case DirectoryRequest => c14
    case Directory => c15
  }

  function XAction(s: State, k: Kind): Action {
    match s
    case Ready =>
      Column(k, Clear, Clear, Clear, DoCallRequest, Clear, DoClearRequest, Clear, Clear, Clear,
             Clear, Clear, DoDisconnect, Clear, Discard, Discard, Discard)
    case XCallRequest =>
      Column(k, Clear, Clear, Clear, Clear, Clear, DoClearRequest, Clear, Clear, Clear,
             Clear, Clear, DoDisconnect, Clear, Discard, Clear, Clear)
    case YCallRequest =>
      Column(k, Clear, Clear, Clear, Clear, Clear, Clear, Clear, Clear, Clear,
             Clear, Clear, DoDisconnect, Clear, Discard, Clear, Clear)
    case DataTransfer =>
      Column(k, DoData, DoRR, DoRNR, Clear, Clear, DoClearRequest, Clear, DoReset, Reset,
             Reset, Reset, DoDisconnect, Reset, Discard, Clear, Clear)
    case CallCollision =>
      Column(k, Clear, Clear, Clear, Clear, Clear, DoClearRequest, Clear, Clear, Clear,
             Clear, Clear, DoDisconnect, Clear, Discard, Clear, Clear)
    case XClearRequest =>
      Column(k, Clear, Clear, Clear, Clear, Clear, Discard, Clear, Clear, Clear,
             Clear, Clear, DoDisconnect, Clear, Discard, Clear, Clear)
    case YClearRequest =>
      Column(k, Discard, Discard, Discard, Discard, Discard, DoClearConfirmation, DoClearConfirmation, Discard, Discard,
             Discard, Discard, DoDisconnect, Discard, Discard, Discard, Discard)
    case XResetRequest =>
      Column(k, Reset, Reset, Reset, Clear, Clear, DoClearRequest, Clear, Discard, Reset,
             Reset, Reset, DoDisconnect, Reset, Discard, Clear, Clear)
    case YResetRequest =>
      Column(k, Discard, Discard, Discard, Clear, Clear, DoClearRequest, Clear, DoResetConfirmation,
             DoResetConfirmation, Discard, Discard, DoDisconnect, Discard, Discard, Clear, Clear)
  }

  /** The rows of this table list fifteen entries for sixteen columns: the entry meant for
      directory requests lands in the diagnostic column, and the last column keeps the zero
      value, `Unspecified`. */
  function YAction(s: State, k: Kind): Action {
    match s
    case Ready =>
      Column(k, Clear, Clear, Clear, DoCallRequest, Clear, DoClearRequest, Clear, Clear, Clear,
             Clear, Clear, DoDisconnect, Clear, Clear, Clear, Unspecified)
    case XCallRequest =>
      Column(k, Clear, Clear, Clear, DoCallCollision, DoCallAccepted, DoClearRequest, Clear, Clear, Clear,
             Clear, Clear, DoDisconnect, Clear, Clear, Clear, Unspecified)
    case YCallRequest =>
      Column(k, Clear, Clear, Clear, Clear, Clear, DoClearRequest, Clear, Clear, Clear,
             Clear, Clear, DoDisconnect, Clear, Clear, Clear, Unspecified)
    case DataTransfer =>
      Column(k, DoData, DoRR, DoRNR, Clear, Clear, DoClearRequest, Clear, DoReset, Reset,
             Reset, Reset, DoDisconnect, Reset, Clear, Clear, Unspecified)
    case CallCollision =>
      Column(k, Clear, Clear, Clear, Clear, DoCallAccepted, DoClearRequest, Clear, Clear, Clear,
             Clear, Clear, DoDisconnect, Clear, Clear, Clear, Unspecified)
    case XClearRequest =>
      Column(k, Clear, Clear, Clear, Clear, Clear, DoClearConfirmation, DoClearConfirmation, Clear, Clear,
             Clear, Clear, DoDisconnect, Clear, Clear, Clear, Unspecified)
    case YClearRequest =>
      Column(k, Discard, Discard, Discard, Discard, Discard, Discard, Discard, Discard, Discard,
             Discard, Discard, DoDisconnect, Discard, Discard, Discard, Unspecified)
    case XResetRequest =>
      Column(k, Discard, Discard, Discard, Clear, Clear, DoClearRequest, Clear, DoResetConfirmation,
             DoResetConfirmation, Reset, Reset, DoDisconnect, Reset, Clear, Clear, Unspecified)
    case YResetRequest =>
      Column(k, Reset, Reset, Reset, Clear, Clear, DoClearRequest, Clear, Discard, Reset,
             Reset, Reset, DoDisconnect, Reset, Clear, Clear, Unspecified)
  }

  function ActionOf(s: State, k: Kind, isY: bool): Action {
    if isY then YAction(s, k) else XAction(s, k)
  }
}
