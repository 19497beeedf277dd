/** The messages that travel on the bus, and the endpoints they are sent to. */
module Messages {
  import opened Basics
  import opened Orders
  import opened Channels
  import opened DataEngines

  /** Orders are passed by pointer and may be missing. */
  datatype Message =
    | DataCommand(command: Command)
    | SubmitOrder(order: Maybe<Order>)
    | CancelOrder(order: Maybe<Order>)
    | ModifyOrder(order: Maybe<Order>, quantity: real, price: real)
    | CancelAllOrders
    | OrderEvent(kind: EventKind, order: Maybe<Order>)
    | MarketData(key: Key, timestamp: int, content: string)
    | OtherMessage(name: string)

  type DataMessage = m: Message | m.MarketData? witness MarketData(QuoteKey(""), 0, "")

  /** The callbacks registered with the bus: engine handlers and the message handlers of actors. */
  datatype Handler =
    | RiskExecute
    | RiskProcess
    | ExecExecute
    | ExecProcess
    | DataExecute
    | DataProcess
    | DataResponse
    | Listener(actor: nat)

  const DATA_ENGINE_EXECUTE := "DataEngine.execute"
  const DATA_ENGINE_PROCESS := "DataEngine.process"
  const DATA_ENGINE_PROCESS_HISTORICAL := "DataEngine.process_historical"
  const DATA_ENGINE_RESPONSE := "DataEngine.response"
  const EXEC_ENGINE_EXECUTE := "ExecEngine.execute"
  const EXEC_ENGINE_PROCESS := "ExecEngine.process"
  const RISK_ENGINE_EXECUTE := "RiskEngine.execute"
  const RISK_ENGINE_PROCESS := "RiskEngine.process"
  const ORDER_EVENT_TOPIC := "OrderEvent"
}
