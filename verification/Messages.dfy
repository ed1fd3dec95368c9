/** The message model and its lifecycle table. Strings are byte strings: one char per byte.
    Times are integers and 0 is the zero time. */
module Messages {

  datatype State = Created | Queued | Processing | Acknowledged | Failed | Retrying | DeadLettered

  function Transitions(s: State): set<State> {
    match s
    case Created => {Queued, Failed}
    case Queued => {Processing}
    case Processing => {Acknowledged, Failed, Queued}
    case Failed => {Retrying, DeadLettered}
    case Retrying => {Queued}
    case Acknowledged => {}
    case DeadLettered => {}
  }

  /** No way out of the state: exactly the two settled states. */
  predicate Terminal(s: State)
    ensures Terminal(s) <==> s == Acknowledged || s == DeadLettered
  {
    assert Queued in Transitions(Created) && Processing in Transitions(Queued);
    assert Queued in Transitions(Processing) && Retrying in Transitions(Failed) && Queued in Transitions(Retrying);
    Transitions(s) == {}
  }

  datatype Publication = Publication(
    exchange: string,
    routingKey: string,
    payload: string,
    headers: map<string, string>,
    schema: string)

  datatype Message = Message(
    id: string,
    exchange: string,
    routingKey: string,
    queue: string,
    schema: string,
    payload: string,
    headers: map<string, string>,
    state: State,
    attempts: int,
    maxAttempts: int,
    lastError: string,
    createdAt: int,
    updatedAt: int,
    availableAt: int)

  /** A message made for `queue` at `now`, before it enters the store. */
  function NewMessage(id: string, pub: Publication, queue: string, now: int): Message {
    Message(id, pub.exchange, pub.routingKey, queue, pub.schema, pub.payload, pub.headers,
            Created, 0, 0, "", now, now, now)
  }

  datatype Error =
    | NotFound
    | Conflict
    | StoreClosed
    | StateMismatch(id: string, actual: State)
    | InvalidTransition(from: State, to: State)

  datatype Outcome<+T> = Ok(value: T) | Err(error: Error)

  /** One checked move along the lifecycle table. */
  function Transition(m: Message, next: State, now: int): Outcome<Message> {
    if next !in Transitions(m.state) then Err(InvalidTransition(m.state, next))
    else Ok(m.(state := next, updatedAt := now))
  }

  /** What a message was published with: nothing in the lifecycle may change it. */
  datatype Content = Content(
    id: string,
    exchange: string,
    routingKey: string,
    queue: string,
    schema: string,
    payload: string,
    headers: map<string, string>,
    createdAt: int)

  function ContentOf(m: Message): Content {
    Content(m.id, m.exchange, m.routingKey, m.queue, m.schema, m.payload, m.headers, m.createdAt)
  }
}
