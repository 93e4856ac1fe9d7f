/**
 * The rows the dashboard reads from its hosted database, as values, and the
 * two shapes a remote call can settle in.
 */
module Records {

  datatype Option<T> = None | Some(value: T)
  {
    /** `x || d` for a nullable `x`. */
    function GetOr(default: T): T
    {
      match this
      case Some(v) => v
      case None => default
    }
  }

  /** How an awaited remote call settles: with its data, or with an error that is caught. */
  datatype Outcome<T> = Succeeded(value: T) | Failed

  /** A row of `customers`. */
  datatype Customer = Customer(name: string, company: string, email: string, phone: Option<string>)

  /**
   * A row of `support_tickets` joined with its customer. Status, priority and
   * category are free strings: the application compares them against fixed
   * values and must cope with anything else.
   */
  datatype Ticket = Ticket(
    id: string,
    title: string,
    description: string,
    status: string,
    priority: string,
    category: string,
    customer: Customer)

  /** A row of `ticket_messages`. */
  datatype Message = Message(
    id: string,
    ticketId: string,
    senderType: string,
    senderName: string,
    message: string,
    aiSuggested: bool)
}
