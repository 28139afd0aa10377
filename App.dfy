/** The root component's state (App.tsx): the shown tutor list, the search box, the two
    tutor selections, the booking list and the user profile. The two delayed callbacks of a
    booking submission are explicit events: "submission lands" (after 1 s) and
    "auto-confirm fires" (5 s after that). Timers of equal delay fire in the order they were
    set, so each kind is a first-in first-out queue. */
module App {
  import opened Types
  import opened Text
  import Seqs
  import Search
  import MockData
  import ActivityList

  /** What the booking dialog hands back. */
  datatype BookingForm = BookingForm(subject: string, time: int, note: string)

  /** A booking as the app creates it: pending or confirmed, with no cost and no class link. */
  predicate MadeByApp(b: Booking) {
    (b.status == Pending || b.status == Confirmed) && b.cost == None && b.meetLink == None
  }

  function BookingIds(bookings: seq<Booking>): set<string> {
    set i | 0 <= i < |bookings| :: bookings[i].id
  }

  /** The booking a submission at instant `now` creates for `tutor`; its id is the decimal
      rendering of the instant. */
  function NewBooking(tutor: Tutor, form: BookingForm, now: nat): (b: Booking)
    ensures MadeByApp(b) && b.status == Pending
    ensures b.tutor == tutor && b.subject == form.subject && b.time == form.time && b.note == form.note
    ensures b.timestamp == now && b.id == DecimalString(now)
  {
    Booking(DecimalString(now), tutor, form.subject, form.time, form.note, Pending, now, None, None)
  }

  /** The auto-confirm update: every booking with the given id becomes confirmed; the others,
      and every other field, stay as they were. */
  function ConfirmById(bookings: seq<Booking>, id: string): (r: seq<Booking>)
    ensures |r| == |bookings|
    ensures forall i :: 0 <= i < |r| ==>
      (bookings[i].id == id ==> r[i] == bookings[i].(status := Confirmed)) &&
      (bookings[i].id != id ==> r[i] == bookings[i])
  {
    if bookings == [] then []
    else
      var head := if bookings[0].id == id then bookings[0].(status := Confirmed) else bookings[0];
      [head] + ConfirmById(bookings[1..], id)
  }

  /** The initial profile. `draw` stands for the random draw behind the deposit code. */
  function InitialProfile(draw: nat): (p: UserProfile)
    requires draw < 900000
    ensures p.balance == 2500000 && !p.isPro
    ensures |p.uniqueCode| == 8 && p.uniqueCode[..2] == "TC" && AllDigits(p.uniqueCode[2..])
  {
    SixDigits(100000 + draw);
    UserProfile(
      "Nguyễn Văn Học", "https://picsum.photos/200/200?random=99", "Đại học Bách Khoa HN",
      "Sinh viên năm 3", "20215566", "01/01/2003", 2500000, false,
      "TC" + DecimalString(100000 + draw),
      [UserGrade("1", "Giải tích 1", "9.0", "A+")],
      [])
  }

  class App {
    /** The fixed tutor catalog every search runs over. */
    const catalog: seq<Tutor>
    var view: ViewState
    var tutors: seq<Tutor>
    var bookings: seq<Booking>
    var userProfile: UserProfile
    var selectedTutorForProfile: Option<Tutor>
    var selectedTutorForBooking: Option<Tutor>
    var searchQuery: string
    var isSearching: bool
    /** Submissions whose 1 s timer has not fired yet, oldest first. */
    var pendingSubmissions: seq<Booking>
    /** Ids whose 5 s auto-confirm timer has not fired yet, oldest first. */
    var pendingConfirms: seq<string>

    /** Every booking, landed or in flight, was made by this component, and a scheduled
        auto-confirm always refers to a booking that has landed. */
    ghost predicate Valid()
      reads this`bookings, this`pendingSubmissions, this`pendingConfirms
    {
      (forall i :: 0 <= i < |bookings| ==> MadeByApp(bookings[i])) &&
      (forall i :: 0 <= i < |pendingSubmissions| ==>
        MadeByApp(pendingSubmissions[i]) && pendingSubmissions[i].status == Pending) &&
      (forall i :: 0 <= i < |pendingConfirms| ==> pendingConfirms[i] in BookingIds(bookings))
    }

    constructor (draw: nat)
      requires draw < 900000
      ensures Valid()
      ensures catalog == MockData.Catalog
      ensures view == Auth && tutors == catalog && bookings == []
      ensures userProfile == InitialProfile(draw)
      ensures selectedTutorForProfile == None && selectedTutorForBooking == None
      ensures searchQuery == "" && !isSearching
      ensures pendingSubmissions == [] && pendingConfirms == []
    {
      catalog := MockData.Catalog;
      view := Auth;
      tutors := MockData.Catalog;
      bookings := [];
      userProfile := InitialProfile(draw);
      selectedTutorForProfile := None;
      selectedTutorForBooking := None;
      searchQuery := "";
      isSearching := false;
      pendingSubmissions := [];
      pendingConfirms := [];
    }

    method Login()
      modifies this`view
      ensures view == Home
    {
      view := Home;
    }

    method Logout()
      modifies this`view
      ensures view == Auth
    {
      view := Auth;
    }

    method SetSearchQuery(text: string)
      modifies this`searchQuery
      ensures searchQuery == text
    {
      searchQuery := text;
    }

    /** Runs a search for the current query to completion. A blank query restores the catalog
        without touching the busy flag; any other query sets it and clears it again on every
        path, so no search is left running. */
    method HandleSearch(ranker: Search.Ranker)
      requires !isSearching
      modifies this`tutors, this`isSearching
      ensures !isSearching
      ensures tutors == Search.Search(catalog, searchQuery, ranker)
    {
      var raw := searchQuery;
      var query := Search.NormalizeQuery(raw);
      if query == [] {
        Search.BlankQueryShowsCatalog(catalog, raw, ranker, ranker);
        tutors := catalog;
        return;
      }
      isSearching := true;
      tutors := Search.Search(catalog, raw, ranker);
      isSearching := false;
    }

    /** "Show all" and "back to the list": clear the query and show the whole catalog. */
    method ShowAll()
      modifies this`searchQuery, this`tutors
      ensures searchQuery == "" && tutors == catalog
    {
      searchQuery := "";
      tutors := catalog;
    }

    method OpenTutorProfile(tutor: Tutor)
      modifies this`selectedTutorForProfile
      ensures selectedTutorForProfile == Some(tutor)
    {
      selectedTutorForProfile := Some(tutor);
    }

    method CloseTutorProfile()
      modifies this`selectedTutorForProfile
      ensures selectedTutorForProfile == None
    {
      selectedTutorForProfile := None;
    }

    method CloseBookingModal()
      modifies this`selectedTutorForBooking
      ensures selectedTutorForBooking == None
    {
      selectedTutorForBooking := None;
    }

    /** The profile dialog closes and its tutor (if any) moves to the booking dialog. */
    method OpenBookingFromProfile()
      modifies this`selectedTutorForProfile, this`selectedTutorForBooking
      ensures selectedTutorForProfile == None
      ensures selectedTutorForBooking == old(selectedTutorForProfile)
    {
      var tutor := selectedTutorForProfile;
      selectedTutorForProfile := None;
      selectedTutorForBooking := tutor;
    }

    /** The booking dialog's confirm: nothing without a selected tutor; otherwise a pending
        booking is created and its submission scheduled. */
    method HandleBookingConfirm(form: BookingForm, now: nat)
      requires Valid()
      modifies this`pendingSubmissions
      ensures Valid()
      ensures selectedTutorForBooking.None? ==> pendingSubmissions == old(pendingSubmissions)
      ensures selectedTutorForBooking.Some? ==>
        pendingSubmissions == old(pendingSubmissions) + [NewBooking(selectedTutorForBooking.value, form, now)]
    {
      if selectedTutorForBooking.None? {
        return;
      }
      var newBooking := NewBooking(selectedTutorForBooking.value, form, now);
      pendingSubmissions := pendingSubmissions + [newBooking];
    }

    /** The 1 s timer of the oldest submission fires: the booking is appended at the end of the
        list, its auto-confirm is scheduled, the booking dialog closes and the success screen shows. */
    method SubmissionLands()
      requires Valid() && pendingSubmissions != []
      modifies this`bookings, this`pendingSubmissions, this`pendingConfirms,
        this`selectedTutorForBooking, this`view
      ensures Valid()
      ensures bookings == old(bookings) + [old(pendingSubmissions)[0]]
      ensures pendingSubmissions == old(pendingSubmissions)[1..]
      ensures pendingConfirms == old(pendingConfirms) + [old(pendingSubmissions)[0].id]
      ensures selectedTutorForBooking == None && view == BookingSuccess
    {
      var b := pendingSubmissions[0];
      bookings := bookings + [b];
      assert b.id == bookings[|bookings| - 1].id;
      assert forall i :: 0 <= i < |pendingConfirms| ==> pendingConfirms[i] in BookingIds(old(bookings)) ==>
        pendingConfirms[i] in BookingIds(bookings) by {
        forall i | 0 <= i < |pendingConfirms| && pendingConfirms[i] in BookingIds(old(bookings))
          ensures pendingConfirms[i] in BookingIds(bookings)
        {
          var k :| 0 <= k < |old(bookings)| && old(bookings)[k].id == pendingConfirms[i];
          assert bookings[k] == old(bookings)[k];
        }
      }
      pendingConfirms := pendingConfirms + [b.id];
      pendingSubmissions := pendingSubmissions[1..];
      selectedTutorForBooking := None;
      view := BookingSuccess;
    }

    /** The oldest auto-confirm timer fires: the bookings with its id become confirmed. */
    method AutoConfirmFires()
      requires Valid() && pendingConfirms != []
      modifies this`bookings, this`pendingConfirms
      ensures Valid()
      ensures bookings == ConfirmById(old(bookings), old(pendingConfirms)[0])
      ensures pendingConfirms == old(pendingConfirms)[1..]
    {
      var id := pendingConfirms[0];
      var before := bookings;
      bookings := ConfirmById(bookings, id);
      forall j | 0 <= j < |pendingConfirms| ensures pendingConfirms[j] in BookingIds(bookings) {
        var k :| 0 <= k < |before| && before[k].id == pendingConfirms[j];
        assert bookings[k].id == before[k].id;
      }
      pendingConfirms := pendingConfirms[1..];
    }
  }

  // ---------------------------------------------------------------- properties

  /** Confirming a booking whose id is new, right after appending it, changes that booking
      alone: it becomes confirmed and every earlier booking is left exactly as it was. */
  lemma {:induction false} ConfirmAppended(bookings: seq<Booking>, b: Booking)
    requires b.id !in BookingIds(bookings)
    ensures ConfirmById(bookings + [b], b.id) == bookings + [b.(status := Confirmed)]
  {
    if bookings != [] {
      assert b.id != bookings[0].id;
      assert BookingIds(bookings[1..]) <= BookingIds(bookings) by {
        forall x | x in BookingIds(bookings[1..]) ensures x in BookingIds(bookings) {
          var k :| 0 <= k < |bookings[1..]| && bookings[1..][k].id == x;
          assert bookings[k + 1].id == x;
        }
      }
      ConfirmAppended(bookings[1..], b);
      assert (bookings + [b])[1..] == bookings[1..] + [b];
    }
  }

  /** Confirming is idempotent. */
  lemma ConfirmTwice(bookings: seq<Booking>, id: string)
    ensures ConfirmById(ConfirmById(bookings, id), id) == ConfirmById(bookings, id)
  {
  }

  /** Bookings submitted at different instants get different ids. */
  lemma BookingIdsDiffer(t1: Tutor, f1: BookingForm, n1: nat, t2: Tutor, f2: BookingForm, n2: nat)
    requires n1 != n2
    ensures NewBooking(t1, f1, n1).id != NewBooking(t2, f2, n2).id
  {
    if DecimalString(n1) == DecimalString(n2) {
      DecimalStringInjective(n1, n2);
    }
  }

  /** No booking the app makes carries a class link, so entering class only ever raises the
      "no class link" alert. */
  lemma EnterClassWithoutLink(b: Booking)
    requires MadeByApp(b)
    ensures ActivityList.EnterClass(b.meetLink) == ActivityList.NoLinkAlert
  {
  }

  /** A search for "Triết" shows every listed tutor with a subject that begins with "Triết",
      whatever the ranking service does, the error path included. */
  lemma PhilosophyQueryFindsTutor(catalog: seq<Tutor>, ranker: Search.Ranker, t: Tutor, k: nat)
    requires t in catalog && k < |t.subjects| && "Triết" <= t.subjects[k]
    ensures t in Search.Search(catalog, "Triết", ranker)
  {
    PhilosophyQueryNormalized();
    ToLowerPrefix("Triết", t.subjects[k]);
    Search.SubjectPrefixShown(catalog, "Triết", ranker, t, k);
  }

  /** So the search for "Triết" over a catalog that lists tutor '2' (the mock catalog does)
      shows tutor '2', who teaches "Triết học Mác-Lênin". */
  lemma PhilosophyQueryFindsTutor2(catalog: seq<Tutor>, ranker: Search.Ranker)
    requires MockData.Tutor2 in catalog
    ensures MockData.Tutor2 in Search.Search(catalog, "Triết", ranker)
  {
    PhilosophySubjectStartsWithQuery();
    PhilosophyQueryFindsTutor(catalog, ranker, MockData.Tutor2, 2);
  }

  /** "Triết" lower-cases to "triết", which trimming leaves as it is. */
  lemma PhilosophyQueryNormalized()
    ensures ToLower("Triết") == "triết" && Search.NormalizeQuery("Triết") == "triết"
  {
    assert ToLower("Triết") == "triết";
    assert TrimStart("triết") == "triết";
    assert TrimEnd("triết") == "triết";
  }

  /** The third subject of tutor '2' begins with "Triết". */
  lemma PhilosophySubjectStartsWithQuery()
    ensures |MockData.Tutor2.subjects| == 3 && "Triết" <= MockData.Tutor2.subjects[2]
  {
    assert MockData.Tutor2.subjects[2] == "Triết" + " học Mác-Lênin";
  }

  /** No search over the catalog shows a tutor twice. */
  lemma CatalogSearchUnique(raw: string, ranker: Search.Ranker)
    ensures Seqs.UniqueKeys(Search.Search(MockData.Catalog, raw, ranker), TutorId)
  {
    MockData.CatalogIdsUnique();
    Search.SearchUniqueIds(MockData.Catalog, raw, ranker);
  }

  // ---------------------------------------------------------------- the activity tab

  /** The activity tab as App.tsx mounts it: the list gets the bookings but no clock. */
  function ActivityTabAsWritten(bookings: seq<Booking>): (r: ActivityList.Mounted)
    ensures r.RenderFailed? <==> bookings != []
  {
    ActivityList.Mount(bookings, None)
  }

  /** The activity tab with the clock the list needs: the instant `now` of rendering. */
  function ActivityTab(bookings: seq<Booking>, now: int): (r: ActivityList.Mounted)
    ensures r.RenderFailed? <==> bookings != [] && !ActivityList.AllPriced(bookings)
  {
    ActivityList.Mount(bookings, Some(now))
  }

  /** As written, the tab fails to render as soon as one booking has landed. Passing the clock
      alone does not help: a booking the app creates has no cost, and its card fails on it. */
  lemma ActivityTabFailsOnceBooked(bookings: seq<Booking>, b: Booking, now: int)
    ensures ActivityTabAsWritten(bookings + [b]) == ActivityList.RenderFailed
    ensures ActivityTabAsWritten([]) == ActivityList.Rendered(ActivityList.NoBookings)
    ensures MadeByApp(b) ==> ActivityTab(bookings + [b], now) == ActivityList.RenderFailed
  {
    if MadeByApp(b) {
      assert (bookings + [b])[|bookings|] == b;
    }
  }

  /** With the clock passed and a cost on every booking, the tab renders one card per booking,
      newest first. */
  lemma ActivityTabShowsEveryBooking(bookings: seq<Booking>, now: int)
    requires ActivityList.AllPriced(bookings)
    ensures ActivityTab(bookings, now).Rendered?
    ensures bookings != [] ==>
      ActivityTab(bookings, now).screen.Cards? &&
      |ActivityTab(bookings, now).screen.cards| == |bookings| &&
      forall i :: 0 <= i < |bookings| ==>
        ActivityTab(bookings, now).screen.cards[i].booking == bookings[|bookings| - 1 - i]
  {
    ActivityList.RenderSpec(bookings, now);
  }
}
