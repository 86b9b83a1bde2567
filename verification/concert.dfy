/** Concerts and tickets as the persistence layer stores them. */
module Concerts {
  import opened Wrappers
  import opened Ids
  import opened Errors

  datatype ConcertStatus = Ready | Open | SoldOut | Closed

  /** A ticket refers to its concert by id; `issuedAt` is an opaque clock reading. */
  datatype Ticket = Ticket(concertId: Long, userId: UserId, issuedAt: nat)

  /** `maxSeats` is the capacity ceiling (at least 1 by bean validation);
      `tickets` is the one-to-many list of issued tickets, in insertion order. */
  datatype Concert = Concert(id: Long, maxSeats: int, status: ConcertStatus, tickets: seq<Ticket>)

  /** True while another ticket still fits. */
  predicate ValidateReservation(c: Concert) {
    |c.tickets| < c.maxSeats
  }

  /** Some stored ticket of `c` already belongs to `user`. */
  predicate HasTicketFor(c: Concert, user: UserId) {
    exists i :: 0 <= i < |c.tickets| && c.tickets[i].userId == user
  }

  /** No two tickets of `c` share a user: the (concert, user) unique constraint. */
  predicate UniqueHolders(c: Concert) {
    forall i, j :: 0 <= i < j < |c.tickets| ==> c.tickets[i].userId != c.tickets[j].userId
  }

  /** The ticket constructor: it refuses a full concert, otherwise links the
      new ticket to the concert and appends it to the concert's list. */
  function NewTicket(c: Concert, user: UserId, issuedAt: nat): (r: Result<(Ticket, Concert), Failure>)
    ensures r.Failure? <==> |c.tickets| >= c.maxSeats
    ensures r.Failure? ==> r.error == Business(TicketMaxReserved)
    ensures r.Success? ==>
              var (t, c') := r.value;
              && t.concertId == c.id && t.userId == user
              && c'.tickets == c.tickets + [t]
              && |c'.tickets| <= c.maxSeats
              && c'.id == c.id && c'.maxSeats == c.maxSeats && c'.status == c.status
  {
    if !ValidateReservation(c) then Failure(Business(TicketMaxReserved))
    else
      var t := Ticket(c.id, user, issuedAt);
      Success((t, c.(tickets := c.tickets + [t])))
  }

  /** Constructing and saving a ticket: the constructor's capacity check runs
      first, then the unique constraint rejects a second ticket for the same
      user of the same concert. */
  function SaveNewTicket(c: Concert, user: UserId, issuedAt: nat): (r: Result<(Ticket, Concert), Failure>)
    ensures r.Failure? <==> |c.tickets| >= c.maxSeats || HasTicketFor(c, user)
    ensures |c.tickets| >= c.maxSeats ==> r == Failure(Business(TicketMaxReserved))
    ensures |c.tickets| < c.maxSeats && HasTicketFor(c, user) ==> r == Failure(ConstraintViolation)
    ensures r.Success? ==> r == NewTicket(c, user, issuedAt)
    ensures UniqueHolders(c) && r.Success? ==> UniqueHolders(r.value.1)
  {
    var made := NewTicket(c, user, issuedAt);
    if made.Failure? then made
    else if HasTicketFor(c, user) then Failure(ConstraintViolation)
    else made
  }

  /** An empty concert with at least one seat accepts a reservation. */
  lemma EmptyConcertAccepts(c: Concert, user: UserId, issuedAt: nat)
    requires c.maxSeats >= 1 && c.tickets == []
    ensures ValidateReservation(c)
    ensures NewTicket(c, user, issuedAt).Success?
  {
  }

  /** Once full, a concert stays full however many tickets are appended. */
  lemma FullStaysFull(c: Concert, more: seq<Ticket>)
    requires !ValidateReservation(c)
    ensures !ValidateReservation(c.(tickets := c.tickets + more))
  {
  }

  /** Reservation is possible exactly when constructing a ticket succeeds,
      and a successful construction grows the list by exactly one. */
  lemma ValidateReservationMeansRoom(c: Concert, user: UserId, issuedAt: nat)
    ensures ValidateReservation(c) <==> NewTicket(c, user, issuedAt).Success?
    ensures NewTicket(c, user, issuedAt).Success? ==>
              |NewTicket(c, user, issuedAt).value.1.tickets| == |c.tickets| + 1
  {
  }
}
