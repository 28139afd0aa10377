/** The activity list: bookings newest first, each with its time-gated actions.
    All instants are integer milliseconds; `now` is the app's current time. */
module ActivityList {
  import opened Types

  /** Entry opens 15 minutes before the scheduled time ... */
  const EnterLead: int := 15 * 60 * 1000
  /** ... and closes 2 hours after it. */
  const EnterGrace: int := 2 * 60 * 60 * 1000
  /** Edit and cancel stay available for 10 minutes after creation. */
  const EditWindow: int := 10 * 60 * 1000

  /** The class-entry window around the scheduled time, both ends included. */
  predicate IsClassTime(now: int, scheduled: int): (r: bool)
    ensures r <==> scheduled - 900000 <= now <= scheduled + 7200000
  {
    var timeDiff := now - scheduled;
    timeDiff >= -EnterLead && timeDiff <= EnterGrace
  }

  /** At most 10 minutes since creation (no lower bound) and not cancelled. */
  predicate CanEditOrCancel(now: int, b: Booking): (r: bool)
    ensures r <==> now <= b.timestamp + 600000 && b.status != Cancelled
  {
    now - b.timestamp <= EditWindow && b.status != Cancelled
  }

  /** The enter-class button of a card. */
  datatype EnterButton = NoEnterButton | EnterDisabled | EnterEnabled

  /** What one booking card offers. */
  datatype Card = Card(booking: Booking, showCancel: bool, showEdit: bool, enter: EnterButton)

  /** The screen: an empty-state message, or the cards. */
  datatype Screen = NoBookings | Cards(cards: seq<Card>)

  /** What pressing "enter class" does. */
  datatype EnterOutcome = OpenLink(url: string) | NoLinkAlert

  /** A reversed copy of the list: the newest booking first. */
  function NewestFirst(bookings: seq<Booking>): (r: seq<Booking>)
    ensures |r| == |bookings|
    ensures forall i :: 0 <= i < |r| ==> r[i] == bookings[|bookings| - 1 - i]
  {
    if bookings == [] then [] else [bookings[|bookings| - 1]] + NewestFirst(bookings[..|bookings| - 1])
  }

  /** One booking's card: cancel and edit together while editable; the enter button only on a
      confirmed booking, enabled exactly inside the class window. */
  function CardFor(now: int, b: Booking): (r: Card)
    ensures r.booking == b
    ensures r.showCancel == r.showEdit == CanEditOrCancel(now, b)
    ensures r.enter == NoEnterButton <==> b.status != Confirmed
    ensures r.enter == EnterEnabled <==> b.status == Confirmed && IsClassTime(now, b.time)
  {
    var editable := CanEditOrCancel(now, b);
    var enter :=
      if b.status != Confirmed then NoEnterButton
      else if IsClassTime(now, b.time) then EnterEnabled
      else EnterDisabled;
    Card(b, editable, editable, enter)
  }

  /** The list: the empty state, or one card per booking, newest first. */
  function Render(bookings: seq<Booking>, now: int): (r: Screen)
    ensures r.NoBookings? <==> bookings == []
    ensures r.Cards? ==>
      |r.cards| == |bookings| &&
      forall i :: 0 <= i < |r.cards| ==> r.cards[i] == CardFor(now, bookings[|bookings| - 1 - i])
  {
    if bookings == [] then NoBookings
    else Cards(seq(|bookings|, i requires 0 <= i < |bookings| => CardFor(now, NewestFirst(bookings)[i])))
  }

  /** What mounting the list yields: its screen, or a failure while rendering. */
  datatype Mounted = RenderFailed | Rendered(screen: Screen)

  /** Every booking carries a cost; each card formats its booking's cost, and formatting a
      missing one fails. */
  predicate AllPriced(bookings: seq<Booking>) {
    forall i :: 0 <= i < |bookings| ==> bookings[i].cost.Some?
  }

  /** The list mounted with an optional clock. The clock and the costs are only read once
      there is a card to draw; reading a missing clock or a missing cost fails. */
  function Mount(bookings: seq<Booking>, currentTime: Option<int>): (r: Mounted)
    ensures r.RenderFailed? <==> bookings != [] && (currentTime.None? || !AllPriced(bookings))
    ensures bookings == [] ==> r == Rendered(NoBookings)
    ensures currentTime.Some? && AllPriced(bookings) ==> r == Rendered(Render(bookings, currentTime.value))
  {
    if bookings == [] then Rendered(NoBookings)
    else if currentTime.None? || !AllPriced(bookings) then RenderFailed
    else Rendered(Render(bookings, currentTime.value))
  }

  /** A falsy link (absent or empty) only raises the "no class link" alert. */
  function EnterClass(link: Option<string>): (r: EnterOutcome)
    ensures r.OpenLink? <==> link.Some? && link.value != ""
    ensures r.OpenLink? ==> link == Some(r.url)
  {
    if link.Some? && link.value != "" then OpenLink(link.value) else NoLinkAlert
  }

  // ---------------------------------------------------------------- properties

  /** Entry is allowed exactly from 15 minutes before to 2 hours after the scheduled time. */
  lemma ClassTimeWindow(now: int, scheduled: int)
    ensures IsClassTime(now, scheduled) <==> scheduled - 900000 <= now <= scheduled + 7200000
    ensures IsClassTime(scheduled - 900000, scheduled) && !IsClassTime(scheduled - 900001, scheduled)
    ensures IsClassTime(scheduled + 7200000, scheduled) && !IsClassTime(scheduled + 7200001, scheduled)
    ensures IsClassTime(scheduled, scheduled)
  {
  }

  /** Edit/cancel is allowed exactly while at most 600000 ms have passed and the booking is not
      cancelled; a creation instant in the future is still editable. */
  lemma EditWindowBounds(now: int, b: Booking)
    ensures CanEditOrCancel(now, b) <==> now <= b.timestamp + 600000 && b.status != Cancelled
    ensures b.status != Cancelled ==> CanEditOrCancel(b.timestamp + 9 * 60 * 1000, b)
    ensures !CanEditOrCancel(b.timestamp + 11 * 60 * 1000, b)
    ensures b.status != Cancelled && now <= b.timestamp ==> CanEditOrCancel(now, b)
  {
  }

  /** The rendered cards: one per booking, newest first; cancel and edit shown exactly when
      editing is allowed; the enter button only on confirmed bookings, disabled exactly
      outside the class-entry window. */
  lemma RenderSpec(bookings: seq<Booking>, now: int)
    ensures Render(bookings, now).NoBookings? <==> bookings == []
    ensures Render(bookings, now).Cards? ==>
      var cards := Render(bookings, now).cards;
      |cards| == |bookings| &&
      forall i :: 0 <= i < |cards| ==>
        var b := bookings[|bookings| - 1 - i];
        cards[i].booking == b &&
        cards[i].showCancel == CanEditOrCancel(now, b) &&
        cards[i].showEdit == CanEditOrCancel(now, b) &&
        (cards[i].enter == NoEnterButton <==> b.status != Confirmed) &&
        (cards[i].enter == EnterDisabled <==> b.status == Confirmed && !IsClassTime(now, b.time)) &&
        (cards[i].enter == EnterEnabled <==> b.status == Confirmed && IsClassTime(now, b.time))
  {
  }

  /** A booking appended last is listed first, ahead of the earlier ones in their newest-first order. */
  lemma {:induction false} NewestFirstAppend(bookings: seq<Booking>, b: Booking)
    ensures NewestFirst(bookings + [b]) == [b] + NewestFirst(bookings)
  {
    assert (bookings + [b])[..|bookings|] == bookings;
  }

  /** Reversing the newest-first list gives back the stored order. */
  lemma NewestFirstInvolution(bookings: seq<Booking>)
    ensures NewestFirst(NewestFirst(bookings)) == bookings
  {
  }
}
