/** The two record shapes of the board: a ticket and the list (column) that holds it. */
module TicketModel {
  import opened Optional

  /** A ticket. The identifier is absent until the store has assigned one.
      `order` is the ticket's rank inside its list; `createdAt` is a timestamp
      supplied by the caller (the model has no clock). */
  datatype Ticket = Ticket(
    id: Option<int>,
    title: string,
    description: string,
    listId: string,
    order: int,
    createdAt: int)

  /** A ticket as handed to the store for insertion: every field but the identifier. */
  datatype NewTicket = NewTicket(
    title: string,
    description: string,
    listId: string,
    order: int,
    createdAt: int)

  /** A list (column) of the board. */
  datatype TicketList = TicketList(id: string, name: string, order: int)
}
