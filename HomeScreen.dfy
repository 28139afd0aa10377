/** The home screen (components/HomeScreen.tsx): the upcoming tutor sessions, the greeting,
    and the student's own weekly timetable with its add dialog and the simulated timetable
    scan. The timetable lives in the user profile the screen receives; the screen's update
    callback replaces that profile's `schoolSchedule`. */
module HomeScreen {
  import opened Types
  import opened Text
  import Seqs
  import Search

  // ---------------------------------------------------------------- upcoming sessions

  function BookingTime(b: Booking): int {
    b.time
  }

  /** The bookings scheduled strictly after `now`, earliest first. */
  function UpcomingBookings(bookings: seq<Booking>, now: int): (r: seq<Booking>)
    ensures |r| <= |bookings|
    ensures Seqs.SortedBy(r, BookingTime)
  {
    Seqs.SortBy(Seqs.Filter(bookings, (b: Booking) => b.time > now), BookingTime)
  }

  /** The home card lists at most the first two upcoming sessions. */
  function ShownUpcoming(bookings: seq<Booking>, now: int): (r: seq<Booking>)
    ensures |r| <= 2
    ensures |r| <= |UpcomingBookings(bookings, now)| && r == UpcomingBookings(bookings, now)[..|r|]
    ensures |r| < 2 ==> r == UpcomingBookings(bookings, now)
  {
    var upcoming := UpcomingBookings(bookings, now);
    if |upcoming| <= 2 then upcoming else upcoming[..2]
  }

  // ---------------------------------------------------------------- greeting

  /** The last piece of a split on the space character: everything after the final space. */
  function LastWord(name: string): (r: string)
    ensures ' ' !in r
    ensures |r| <= |name| && r == name[|name| - |r|..]
    ensures |r| < |name| ==> name[|name| - |r| - 1] == ' '
  {
    if name == [] then []
    else if name[|name| - 1] == ' ' then []
    else LastWord(name[..|name| - 1]) + [name[|name| - 1]]
  }

  // ---------------------------------------------------------------- weekly timetable

  /** The weekdays in display order. */
  const Days: seq<string> := ["Thứ 2", "Thứ 3", "Thứ 4", "Thứ 5", "Thứ 6", "Thứ 7", "Chủ Nhật"]

  /** The items listed under one weekday heading. */
  datatype DayGroup = DayGroup(day: string, items: seq<SchoolScheduleItem>)

  /** The timetable panel: an empty-state hint, or the weekday groups. */
  datatype ScheduleView = NoSchedule | Grouped(groups: seq<DayGroup>)

  predicate HasDay(schedule: seq<SchoolScheduleItem>, day: string) {
    exists k :: 0 <= k < |schedule| && schedule[k].day == day
  }

  function ItemsOn(schedule: seq<SchoolScheduleItem>, day: string): seq<SchoolScheduleItem> {
    Seqs.Filter(schedule, (s: SchoolScheduleItem) => s.day == day)
  }

  /** One group per day of `days` that has an item, in the order of `days`. Each group is
      headed by one of `days` and lists only items of that day, and at least one. */
  function GroupsOf(schedule: seq<SchoolScheduleItem>, days: seq<string>): (r: seq<DayGroup>)
    ensures |r| <= |days|
    ensures forall i :: 0 <= i < |r| ==> r[i].day in days && r[i].items != []
    ensures forall i, k :: 0 <= i < |r| && 0 <= k < |r[i].items| ==>
      r[i].items[k].day == r[i].day && r[i].items[k] in schedule
  {
    if days == [] then []
    else
      var rest := GroupsOf(schedule, days[1..]);
      if HasDay(schedule, days[0]) then
        var k :| 0 <= k < |schedule| && schedule[k].day == days[0];
        assert schedule[k] in ItemsOn(schedule, days[0]);
        [DayGroup(days[0], ItemsOn(schedule, days[0]))] + rest
      else rest
  }

  /** The timetable panel: the hint for an empty timetable, otherwise the weekday groups. */
  function ScheduleDisplay(schedule: seq<SchoolScheduleItem>): (r: ScheduleView)
    ensures r.NoSchedule? <==> schedule == []
    ensures r.Grouped? ==> |r.groups| <= |Days|
    ensures r.Grouped? ==> forall i :: 0 <= i < |r.groups| ==> r.groups[i].day in Days && r.groups[i].items != []
  {
    if schedule == [] then NoSchedule else Grouped(GroupsOf(schedule, Days))
  }

  // ---------------------------------------------------------------- add dialog

  /** The add dialog's partially filled item; an absent field is one the student never set. */
  datatype ScheduleForm = ScheduleForm(
    subject: Option<string>,
    day: Option<string>,
    startTime: Option<string>,
    endTime: Option<string>,
    room: Option<string>,
    startDate: Option<string>,
    endDate: Option<string>)

  /** The dialog's initial and reset state: Monday, 07:00 to 09:00, nothing else set. */
  const DefaultForm: ScheduleForm :=
    ScheduleForm(None, Some("Thứ 2"), Some("07:00"), Some("09:00"), None, None, None)

  /** A field or its fallback: absent and empty both count as unset. */
  function OrDefault(v: Option<string>, fallback: string): (r: string)
    ensures v.Some? && v.value != "" ==> r == v.value
    ensures v.None? || v.value == "" ==> r == fallback
  {
    if v.Some? && v.value != "" then v.value else fallback
  }

  /** The item the dialog saves, or None when the subject is missing or blank. */
  function NewScheduleItem(form: ScheduleForm, id: string): (r: Option<SchoolScheduleItem>)
    ensures r.None? <==> form.subject.None? || AllWhitespace(form.subject.value)
    ensures r.Some? ==>
      r.value.id == id && r.value.subject == form.subject.value &&
      r.value.day == OrDefault(form.day, "Thứ 2") &&
      r.value.startTime == OrDefault(form.startTime, "07:00") &&
      r.value.endTime == OrDefault(form.endTime, "09:00") &&
      r.value.room == OrDefault(form.room, "") &&
      r.value.startDate == form.startDate && r.value.endDate == form.endDate
  {
    if form.subject.None? || form.subject.value == "" then
      None
    else if Trim(form.subject.value) == "" then
      TrimEmptyIff(form.subject.value);
      None
    else
      TrimEmptyIff(form.subject.value);
      Some(ScheduleItemOf(form, id))
  }

  /** The item a filled-in form describes, with the defaults for the fields left empty. */
  function ScheduleItemOf(form: ScheduleForm, id: string): SchoolScheduleItem
    requires form.subject.Some?
  {
    SchoolScheduleItem(
      id, form.subject.value,
      OrDefault(form.day, "Thứ 2"), OrDefault(form.startTime, "07:00"), OrDefault(form.endTime, "09:00"),
      OrDefault(form.room, ""), form.startDate, form.endDate)
  }

  // ---------------------------------------------------------------- timetable scan

  /** The id of the n-th scanned item for a scan finishing at instant `ts`. */
  function OcrId(ts: nat, n: string): string {
    "ocr_" + DecimalString(ts) + "_" + n
  }

  /** The two items the simulated scan always yields. */
  function OcrItems(ts: nat): (r: seq<SchoolScheduleItem>)
    ensures |r| == 2
    ensures r[0].id == OcrId(ts, "1") && r[1].id == OcrId(ts, "2")
    ensures r[0].day == "Thứ 4" && r[1].day == "Thứ 6"
  {
    [ SchoolScheduleItem(OcrId(ts, "1"), "Pháp luật đại cương", "Thứ 4", "09:00", "11:00", "D6-105",
        Some("20/09/2024"), None),
      SchoolScheduleItem(OcrId(ts, "2"), "Vật lý đại cương 1", "Thứ 6", "13:00", "16:00", "TC-201",
        Some("20/09/2024"), None) ]
  }

  /** The scan's update as the callback is written: it appends to the timetable it captured
      when the file was chosen, not to the one current when it fires. */
  function OcrUpdateAsWritten(captured: seq<SchoolScheduleItem>, ts: nat)
    : (r: seq<SchoolScheduleItem>)
    ensures |r| == |captured| + 2 && r[..|captured|] == captured
    ensures r[|captured|..] == OcrItems(ts)
  {
    captured + OcrItems(ts)
  }

  /** The scan's intended update: the scanned items go after the current timetable. */
  function OcrUpdate(current: seq<SchoolScheduleItem>, ts: nat): (r: seq<SchoolScheduleItem>)
    ensures |r| == |current| + 2
  {
    current + OcrItems(ts)
  }

  // ---------------------------------------------------------------- screen state

  class HomeScreen {
    /** The profile as last handed to the screen, with every timetable update applied. */
    var profile: UserProfile
    var editingItem: ScheduleForm
    var showScheduleModal: bool
    var isProcessing: bool
    /** One entry per scan timer that has not fired yet: the timetable as it was when its file
        was chosen, which the timer's callback captured. Timers fire in the order they were set. */
    var ocrCaptured: seq<seq<SchoolScheduleItem>>

    constructor (p: UserProfile)
      ensures profile == p && editingItem == DefaultForm
      ensures !showScheduleModal && !isProcessing && ocrCaptured == []
    {
      profile := p;
      editingItem := DefaultForm;
      showScheduleModal := false;
      isProcessing := false;
      ocrCaptured := [];
    }

    /** The "add" button: the form is reset to its defaults and the dialog opens. */
    method OpenAddDialog()
      modifies this`editingItem, this`showScheduleModal
      ensures editingItem == DefaultForm && showScheduleModal
    {
      editingItem := DefaultForm;
      showScheduleModal := true;
    }

    /** The dialog's inputs change the partially filled item. */
    method EditForm(form: ScheduleForm)
      modifies this`editingItem
      ensures editingItem == form
    {
      editingItem := form;
    }

    /** The dialog's save at instant `now`: a blank subject changes nothing (an alert is
        shown); otherwise the item is appended, the form reset and the dialog closed. */
    method AddSchedule(now: nat)
      modifies this`profile, this`editingItem, this`showScheduleModal
      ensures old(editingItem.subject).None? || AllWhitespace(old(editingItem.subject).value) ==>
        profile == old(profile) && editingItem == old(editingItem) && showScheduleModal == old(showScheduleModal)
      ensures old(editingItem.subject).Some? && !AllWhitespace(old(editingItem.subject).value) ==>
        profile == old(profile).(schoolSchedule :=
          old(profile).schoolSchedule + [ScheduleItemOf(old(editingItem), DecimalString(now))]) &&
        editingItem == DefaultForm && !showScheduleModal
    {
      var item := NewScheduleItem(editingItem, DecimalString(now));
      if item.None? {
        return;
      }
      profile := profile.(schoolSchedule := profile.schoolSchedule + [item.value]);
      editingItem := DefaultForm;
      showScheduleModal := false;
    }

    /** A file was picked (or the picker was dismissed): a picked file starts the 2 s scan,
        whose callback captures the timetable as it is now. */
    method FileChosen(hasFile: bool)
      modifies this`isProcessing, this`ocrCaptured
      ensures hasFile ==> isProcessing && ocrCaptured == old(ocrCaptured) + [profile.schoolSchedule]
      ensures !hasFile ==> isProcessing == old(isProcessing) && ocrCaptured == old(ocrCaptured)
    {
      if hasFile {
        isProcessing := true;
        ocrCaptured := ocrCaptured + [profile.schoolSchedule];
      }
    }

    /** The oldest scan timer fires at instant `ts`, as the callback is written: the busy flag
        clears and the timetable becomes the one captured at file choice plus the two scanned
        items, whatever was added since. */
    method OcrFires(ts: nat)
      requires ocrCaptured != []
      modifies this`profile, this`isProcessing, this`ocrCaptured
      ensures profile == old(profile).(schoolSchedule :=
        OcrUpdateAsWritten(old(ocrCaptured[0]), ts))
      ensures !isProcessing && ocrCaptured == old(ocrCaptured[1..])
    {
      profile := profile.(schoolSchedule := OcrUpdateAsWritten(ocrCaptured[0], ts));
      isProcessing := false;
      ocrCaptured := ocrCaptured[1..];
    }

    /** The same timer with the evidently intended callback: the two scanned items go after
        the timetable current when it fires. */
    method OcrFiresIntended(ts: nat)
      requires ocrCaptured != []
      modifies this`profile, this`isProcessing, this`ocrCaptured
      ensures profile == old(profile).(schoolSchedule := OcrUpdate(old(profile.schoolSchedule), ts))
      ensures !isProcessing && ocrCaptured == old(ocrCaptured[1..])
    {
      profile := profile.(schoolSchedule := OcrUpdate(profile.schoolSchedule, ts));
      isProcessing := false;
      ocrCaptured := ocrCaptured[1..];
    }
  }

  /** A file is chosen, an item is typed in and saved at instant `now` while the scan runs, and
      the scan lands at instant `ts`, as the callback is written: the timetable ends as it was
      at file choice plus the scanned items, and the saved item is gone. The screen's own
      item ids are instants, so `now` is not an id already in the timetable. */
  method ConcurrentAddLost(p: UserProfile, form: ScheduleForm, now: nat, ts: nat)
    returns (added: SchoolScheduleItem, shown: seq<SchoolScheduleItem>)
    requires form.subject.Some? && !AllWhitespace(form.subject.value)
    requires forall i :: 0 <= i < |p.schoolSchedule| ==> p.schoolSchedule[i].id != DecimalString(now)
    ensures added == ScheduleItemOf(form, DecimalString(now))
    ensures shown == p.schoolSchedule + OcrItems(ts)
    ensures added !in shown
  {
    var screen := new HomeScreen(p);
    screen.FileChosen(true);
    assert screen.ocrCaptured == [p.schoolSchedule];
    screen.EditForm(form);
    screen.AddSchedule(now);
    added := ScheduleItemOf(form, DecimalString(now));
    assert screen.ocrCaptured == [p.schoolSchedule];
    screen.OcrFires(ts);
    shown := screen.profile.schoolSchedule;
    assert shown == OcrUpdateAsWritten(p.schoolSchedule, ts);
    NewIdNotInScan(p.schoolSchedule, ts, now, added, shown);
  }

  /** An item whose id is the save instant is neither in a timetable that lacks that id nor
      among the scanned items. */
  lemma NewIdNotInScan(sched: seq<SchoolScheduleItem>, ts: nat, now: nat, item: SchoolScheduleItem,
                        shown: seq<SchoolScheduleItem>)
    requires item.id == DecimalString(now)
    requires forall i :: 0 <= i < |sched| ==> sched[i].id != DecimalString(now)
    requires shown == sched + OcrItems(ts)
    ensures item !in shown
  {
    OcrIdsDistinct(ts, ts, now);
    assert item !in OcrItems(ts);
    assert item !in sched;
  }

  /** The same events with the intended callback: the saved item and the scanned items are all
      kept, after the timetable the screen started with. */
  method ConcurrentAddKept(p: UserProfile, form: ScheduleForm, now: nat, ts: nat)
    returns (added: SchoolScheduleItem, shown: seq<SchoolScheduleItem>)
    requires form.subject.Some? && !AllWhitespace(form.subject.value)
    ensures added == ScheduleItemOf(form, DecimalString(now))
    ensures shown == p.schoolSchedule + [added] + OcrItems(ts)
    ensures added in shown
  {
    var screen := new HomeScreen(p);
    screen.FileChosen(true);
    screen.EditForm(form);
    screen.AddSchedule(now);
    added := ScheduleItemOf(form, DecimalString(now));
    screen.OcrFiresIntended(ts);
    shown := screen.profile.schoolSchedule;
    assert shown[|p.schoolSchedule|] == added;
  }

  // ---------------------------------------------------------------- properties

  /** A booking is upcoming exactly when it is in the list and scheduled after `now`, and it
      is listed as often as it occurs in the list; the upcoming list is in ascending time. */
  lemma UpcomingBookingsSpec(bookings: seq<Booking>, now: int)
    ensures forall b :: b in UpcomingBookings(bookings, now) <==> b in bookings && b.time > now
    ensures forall b ::
      multiset(UpcomingBookings(bookings, now))[b] == (if b.time > now then multiset(bookings)[b] else 0)
    ensures forall i, j :: 0 <= i < j < |UpcomingBookings(bookings, now)| ==>
      UpcomingBookings(bookings, now)[i].time <= UpcomingBookings(bookings, now)[j].time
  {
    var p := (b: Booking) => b.time > now;
    var filtered := Seqs.Filter(bookings, p);
    Seqs.FilterMultiset(bookings, p);
    forall b ensures b in UpcomingBookings(bookings, now) <==> b in bookings && b.time > now {
      assert b in UpcomingBookings(bookings, now) <==> multiset(UpcomingBookings(bookings, now))[b] > 0;
      assert b in bookings <==> multiset(bookings)[b] > 0;
    }
  }

  /** The home card shows the earliest upcoming sessions: at most two, none shown is later
      than an upcoming one that is left out, and they are the first ones of the upcoming list. */
  lemma ShownUpcomingSpec(bookings: seq<Booking>, now: int)
    ensures var up := UpcomingBookings(bookings, now);
      var shown := ShownUpcoming(bookings, now);
      |shown| == (if |up| < 2 then |up| else 2) && shown == up[..|shown|] &&
      forall i, j :: 0 <= i < |shown| <= j < |up| ==> shown[i].time <= up[j].time
  {
    var up := UpcomingBookings(bookings, now);
    assert Seqs.SortedBy(up, BookingTime);
  }

  /** The greeting uses the last space-separated word of the student's name. */
  lemma GreetingWord()
    ensures LastWord("Nguyễn Văn Học") == "Học"
  {
    LastWordAfterSpace("Nguyễn Văn", "Học");
    assert "Nguyễn Văn" + " " + "Học" == "Nguyễn Văn Học";
  }

  /** Whatever precedes the final space, the last word is what follows it. */
  lemma {:induction false} LastWordAfterSpace(prefix: string, word: string)
    requires ' ' !in word
    ensures LastWord(prefix + " " + word) == word
  {
    if word == [] {
      assert (prefix + " " + word)[|prefix + " " + word| - 1] == ' ';
    } else {
      var w := word[..|word| - 1];
      assert (prefix + " " + word)[..|prefix + " " + word| - 1] == prefix + " " + w;
      LastWordAfterSpace(prefix, w);
    }
  }

  /** Every day of the timetable that has an item gets a group, which lists every item of that
      day; an item whose day is not one of `days` is not shown. */
  lemma GroupsComplete(schedule: seq<SchoolScheduleItem>, days: seq<string>, k: nat)
    requires k < |schedule|
    ensures schedule[k].day in days <==>
      exists i :: 0 <= i < |GroupsOf(schedule, days)| &&
        GroupsOf(schedule, days)[i].day == schedule[k].day && schedule[k] in GroupsOf(schedule, days)[i].items
  {
    if schedule[k].day in days {
      var i := GroupOfItem(schedule, days, k);
    }
  }

  /** The position of the group that lists item `k`. */
  lemma {:induction false} GroupOfItem(schedule: seq<SchoolScheduleItem>, days: seq<string>, k: nat)
    returns (i: nat)
    requires k < |schedule| && schedule[k].day in days
    ensures i < |GroupsOf(schedule, days)|
    ensures GroupsOf(schedule, days)[i].day == schedule[k].day
    ensures schedule[k] in GroupsOf(schedule, days)[i].items
  {
    var g := GroupsOf(schedule, days);
    var rest := GroupsOf(schedule, days[1..]);
    if schedule[k].day == days[0] {
      assert HasDay(schedule, days[0]);
      assert schedule[k] in ItemsOn(schedule, days[0]);
      i := 0;
    } else {
      assert schedule[k].day in days[1..];
      var j := GroupOfItem(schedule, days[1..], k);
      if HasDay(schedule, days[0]) {
        assert g == [g[0]] + rest;
        i := j + 1;
      } else {
        assert g == rest;
        i := j;
      }
    }
  }

  /** With distinct days, the groups follow the order of `days`, so no day appears twice. */
  lemma {:induction false} GroupsOrdered(schedule: seq<SchoolScheduleItem>, days: seq<string>)
    requires forall p, q :: 0 <= p < q < |days| ==> days[p] != days[q]
    ensures forall i, j :: 0 <= i < j < |GroupsOf(schedule, days)| ==>
      Search.IndexOf(days, GroupsOf(schedule, days)[i].day) < Search.IndexOf(days, GroupsOf(schedule, days)[j].day)
  {
    if days != [] {
      var g := GroupsOf(schedule, days);
      var rest := GroupsOf(schedule, days[1..]);
      GroupsOrdered(schedule, days[1..]);
      forall i | 0 <= i < |rest|
        ensures Search.IndexOf(days, rest[i].day) == Search.IndexOf(days[1..], rest[i].day) + 1
      {
        assert rest[i].day != days[0];
      }
      if HasDay(schedule, days[0]) {
        assert g == [g[0]] + rest;
        assert Search.IndexOf(days, g[0].day) == 0;
        forall i, j | 0 <= i < j < |g|
          ensures Search.IndexOf(days, g[i].day) < Search.IndexOf(days, g[j].day)
        {
          assert g[j] == rest[j - 1];
          if i > 0 {
            assert g[i] == rest[i - 1];
          }
        }
      }
    }
  }

  lemma DaysDistinct()
    ensures forall p, q :: 0 <= p < q < |Days| ==> Days[p] != Days[q]
  {
    forall p, q | 0 <= p < q < |Days| ensures Days[p] != Days[q] {
      assert Days[p][4] != Days[q][4];
    }
  }

  /** The timetable panel: the hint exactly when there is no item; otherwise the weekday groups
      in weekday order, each weekday at most once, and every item with a known weekday listed
      under its own day (an item with any other day is not shown). */
  lemma ScheduleDisplaySpec(schedule: seq<SchoolScheduleItem>)
    ensures ScheduleDisplay(schedule).NoSchedule? <==> schedule == []
    ensures ScheduleDisplay(schedule).Grouped? ==>
      var g := ScheduleDisplay(schedule).groups;
      (forall i, j :: 0 <= i < j < |g| ==> Search.IndexOf(Days, g[i].day) < Search.IndexOf(Days, g[j].day)) &&
      (forall k :: 0 <= k < |schedule| ==>
        (schedule[k].day in Days <==>
          exists i :: 0 <= i < |g| && g[i].day == schedule[k].day && schedule[k] in g[i].items))
  {
    if schedule != [] {
      DaysDistinct();
      GroupsOrdered(schedule, Days);
      forall k | 0 <= k < |schedule|
        ensures schedule[k].day in Days <==>
          exists i :: 0 <= i < |GroupsOf(schedule, Days)| &&
            GroupsOf(schedule, Days)[i].day == schedule[k].day && schedule[k] in GroupsOf(schedule, Days)[i].items
      {
        GroupsComplete(schedule, Days, k);
      }
    }
  }

  /** Two scanned items of one scan have different ids; scans at different instants give
      different ids; and no scanned id is a plain number, as the ids of typed-in items are. */
  lemma OcrIdsDistinct(ts: nat, ts2: nat, n: nat)
    ensures OcrItems(ts)[0].id != OcrItems(ts)[1].id
    ensures ts != ts2 ==> OcrId(ts, "1") != OcrId(ts2, "1") && OcrId(ts, "2") != OcrId(ts2, "2")
    ensures OcrItems(ts)[0].id != DecimalString(n) && OcrItems(ts)[1].id != DecimalString(n)
  {
    var a := OcrId(ts, "1");
    assert a[|a| - 1] == '1';
    var b := OcrId(ts, "2");
    assert b[|b| - 1] == '2';
    assert !IsDigit(a[0]) && !IsDigit(b[0]);
    if OcrId(ts, "1") == OcrId(ts2, "1") {
      OcrIdInjective(ts, ts2, "1");
    }
    if OcrId(ts, "2") == OcrId(ts2, "2") {
      OcrIdInjective(ts, ts2, "2");
    }
  }

  lemma OcrIdInjective(ts: nat, ts2: nat, n: string)
    requires OcrId(ts, n) == OcrId(ts2, n)
    ensures ts == ts2
  {
    var a, b := DecimalString(ts), DecimalString(ts2);
    assert |a| == |b|;
    assert a == OcrId(ts, n)[4..4 + |a|];
    assert b == OcrId(ts2, n)[4..4 + |b|];
    DecimalStringInjective(ts, ts2);
  }

  /** The intended scan update keeps the current timetable as it is and adds the two scanned
      items after it. */
  lemma OcrUpdateKeepsCurrent(current: seq<SchoolScheduleItem>, ts: nat)
    ensures OcrUpdate(current, ts)[..|current|] == current
    ensures OcrUpdate(current, ts)[|current|..] == OcrItems(ts)
    ensures forall x :: x in current ==> x in OcrUpdate(current, ts)
  {
  }

}
