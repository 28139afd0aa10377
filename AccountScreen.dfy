/** The account screen (components/AccountScreen.tsx): top-up, the Pro upgrade, the grade
    list and the tutor-registration subject picker. The profile itself belongs to the app:
    every update the screen makes replaces the app's profile as a whole. */
module AccountScreen {
  import opened Types
  import opened Text
  import Seqs
  import App

  /** The smallest accepted top-up, in đồng. */
  const MinDeposit: nat := 10000
  /** The monthly price of Pro, in đồng. */
  const ProPrice: nat := 39000

  // ---------------------------------------------------------------- top-up

  datatype DepositResult = InvalidAmount | Deposited(amount: nat, profile: UserProfile)

  /** The typed amount with every non-digit removed, read as a decimal number. No digit at all
      reads as "not a number", which is rejected like zero. */
  function Deposit(p: UserProfile, text: string): (r: DepositResult)
    ensures r.Deposited? <==> DigitsOnly(text) != [] && ParseDecimal(DigitsOnly(text)) >= MinDeposit
    ensures r.Deposited? ==>
      r.amount == ParseDecimal(DigitsOnly(text)) && r.amount >= MinDeposit &&
      r.profile == p.(balance := p.balance + r.amount)
  {
    var digits := DigitsOnly(text);
    if digits == [] then InvalidAmount
    else
      var val := ParseDecimal(digits);
      if val == 0 || val < MinDeposit then InvalidAmount
      else Deposited(val, p.(balance := p.balance + val))
  }

  // ---------------------------------------------------------------- Pro upgrade

  datatype UpgradeResult = AlreadyPro | InsufficientBalance | Declined | Upgraded(profile: UserProfile)

  /** The upgrade button; `confirmed` is the student's answer to the confirmation prompt. */
  function Upgrade(p: UserProfile, confirmed: bool): (r: UpgradeResult)
    ensures r == AlreadyPro <==> p.isPro
    ensures r == InsufficientBalance <==> !p.isPro && p.balance < ProPrice
    ensures r == Declined <==> !p.isPro && p.balance >= ProPrice && !confirmed
    ensures r.Upgraded? <==> !p.isPro && p.balance >= ProPrice && confirmed
    ensures r.Upgraded? ==>
      r.profile.isPro && r.profile.balance + ProPrice == p.balance && r.profile.balance >= 0 &&
      r.profile == p.(balance := r.profile.balance, isPro := true)
  {
    if p.isPro then AlreadyPro
    else if p.balance < ProPrice then InsufficientBalance
    else if confirmed then Upgraded(p.(balance := p.balance - ProPrice, isPro := true))
    else Declined
  }

  // ---------------------------------------------------------------- grades

  /** The grade the add button records, or None when the subject or the score is empty.
      White space counts as content here; an empty letter becomes "N/A". */
  function NewGrade(subject: string, scoreNumber: string, scoreLetter: string, id: string)
    : (r: Option<UserGrade>)
    ensures r.None? <==> subject == "" || scoreNumber == ""
    ensures r.Some? ==>
      r.value.id == id && r.value.subjectName == subject && r.value.scoreNumber == scoreNumber &&
      (scoreLetter != "" ==> r.value.scoreLetter == scoreLetter) &&
      (scoreLetter == "" ==> r.value.scoreLetter == "N/A")
  {
    if subject == "" || scoreNumber == "" then None
    else Some(UserGrade(id, subject, scoreNumber, if scoreLetter != "" then scoreLetter else "N/A"))
  }

  /** Records a grade, if there is one, after the earlier ones. */
  function AddGrade(p: UserProfile, grade: Option<UserGrade>): (r: UserProfile)
    ensures r.(grades := p.grades) == p
    ensures grade.None? ==> r.grades == p.grades
    ensures grade.Some? ==> r.grades == p.grades + [grade.value]
  {
    if grade.None? then p else p.(grades := p.grades + [grade.value])
  }

  // ---------------------------------------------------------------- tutor registration

  /** A subject is its own key: no subject is picked twice. */
  function Same(x: string): string {
    x
  }

  ghost predicate Distinct(s: seq<string>) {
    Seqs.UniqueKeys(s, Same)
  }

  /** A selected subject is dropped (the others keep their order); an unselected one is added
      at the end. */
  function ToggleSubject(selected: seq<string>, s: string): (r: seq<string>)
    ensures s in r <==> s !in selected
    ensures s !in selected ==> r == selected + [s]
  {
    if s in selected then Seqs.Filter(selected, (x: string) => x != s) else selected + [s]
  }

  /** Clicking a series of subjects in turn. */
  function ToggleAll(selected: seq<string>, clicks: seq<string>): seq<string>
    decreases |clicks|
  {
    if clicks == [] then selected else ToggleAll(ToggleSubject(selected, clicks[0]), clicks[1..])
  }

  // ---------------------------------------------------------------- screen state

  datatype AccountView = MainView | InfoView | DepositView | ProView | TutorView | SupportView

  /** The account screen and the local state of the sub-screen it shows. A sub-screen's local
      state starts empty each time the sub-screen is opened. */
  class AccountScreen {
    var currentView: AccountView
    /** The top-up amount field. */
    var amount: string
    /** The add-grade fields. */
    var newSubject: string
    var newScoreNum: string
    var newScoreLet: string
    /** The subjects picked on the registration form. */
    var selectedSubjects: seq<string>

    /** What the subject picker keeps true: no subject is picked twice. */
    ghost predicate Valid()
      reads this
    {
      Distinct(selectedSubjects)
    }

    constructor ()
      ensures Valid()
      ensures currentView == MainView && amount == "" && selectedSubjects == []
      ensures newSubject == "" && newScoreNum == "" && newScoreLet == ""
    {
      currentView := MainView;
      amount := "";
      newSubject := "";
      newScoreNum := "";
      newScoreLet := "";
      selectedSubjects := [];
    }

    /** Opens a sub-screen, or goes back to the main one; the sub-screen starts afresh. */
    method Navigate(v: AccountView)
      modifies this
      ensures Valid()
      ensures currentView == v && amount == "" && selectedSubjects == []
      ensures newSubject == "" && newScoreNum == "" && newScoreLet == ""
    {
      currentView := v;
      amount := "";
      newSubject := "";
      newScoreNum := "";
      newScoreLet := "";
      selectedSubjects := [];
    }

    method SetAmount(text: string)
      modifies this`amount
      ensures amount == text
    {
      amount := text;
    }

    method SetGradeFields(subject: string, scoreNumber: string, scoreLetter: string)
      modifies this`newSubject, this`newScoreNum, this`newScoreLet
      ensures newSubject == subject && newScoreNum == scoreNumber && newScoreLet == scoreLetter
    {
      newSubject, newScoreNum, newScoreLet := subject, scoreNumber, scoreLetter;
    }

    /** The top-up button: an invalid amount changes nothing (an alert is shown); a valid one
        is added to the balance and the screen goes back to the main view. */
    method HandleDeposit(app: App.App)
      modifies app`userProfile, this`currentView, this`amount
      ensures Deposit(old(app.userProfile), old(amount)).InvalidAmount? ==>
        app.userProfile == old(app.userProfile) && currentView == old(currentView) && amount == old(amount)
      ensures Deposit(old(app.userProfile), old(amount)).Deposited? ==>
        app.userProfile == Deposit(old(app.userProfile), old(amount)).profile &&
        currentView == MainView && amount == ""
    {
      var r := Deposit(app.userProfile, amount);
      if r.InvalidAmount? {
        return;
      }
      app.userProfile := r.profile;
      currentView := MainView;
      amount := "";
    }

    /** The upgrade button: too little balance opens the top-up screen; a confirmed upgrade
        charges the price, sets Pro and goes back to the main view; otherwise nothing changes. */
    method HandleUpgrade(app: App.App, confirmed: bool)
      modifies app`userProfile, this`currentView, this`amount
      ensures var r := Upgrade(old(app.userProfile), confirmed);
        (r.Upgraded? ==> app.userProfile == r.profile && currentView == MainView && amount == old(amount)) &&
        (r == InsufficientBalance ==>
          app.userProfile == old(app.userProfile) && currentView == DepositView && amount == "") &&
        (r == AlreadyPro || r == Declined ==>
          app.userProfile == old(app.userProfile) && currentView == old(currentView) && amount == old(amount))
    {
      var r := Upgrade(app.userProfile, confirmed);
      match r
      case AlreadyPro =>
      case Declined =>
      case InsufficientBalance =>
        currentView := DepositView;
        amount := "";
      case Upgraded(p) =>
        app.userProfile := p;
        currentView := MainView;
    }

    /** The add-grade button at instant `now`: with a subject and a score the grade is appended
        and the fields cleared; otherwise nothing changes. */
    method HandleAddGrade(app: App.App, now: nat)
      modifies app`userProfile, this`newSubject, this`newScoreNum, this`newScoreLet
      ensures var g := NewGrade(old(newSubject), old(newScoreNum), old(newScoreLet), DecimalString(now));
        app.userProfile == AddGrade(old(app.userProfile), g) &&
        (g.Some? ==> newSubject == "" && newScoreNum == "" && newScoreLet == "") &&
        (g.None? ==>
          newSubject == old(newSubject) && newScoreNum == old(newScoreNum) && newScoreLet == old(newScoreLet))
    {
      var g := NewGrade(newSubject, newScoreNum, newScoreLet, DecimalString(now));
      if g.None? {
        return;
      }
      app.userProfile := AddGrade(app.userProfile, g);
      newSubject, newScoreNum, newScoreLet := "", "", "";
    }

    /** A click on a subject of the registration form. */
    method Toggle(s: string)
      requires Valid()
      modifies this`selectedSubjects
      ensures Valid()
      ensures selectedSubjects == ToggleSubject(old(selectedSubjects), s)
    {
      ToggleKeepsDistinct(selectedSubjects, s);
      selectedSubjects := ToggleSubject(selectedSubjects, s);
    }
  }

  // ---------------------------------------------------------------- properties

  /** A typed whole number of at least 10 000 is credited exactly; a smaller one is refused. */
  lemma DepositOfNumber(p: UserProfile, n: nat)
    ensures n >= MinDeposit ==> Deposit(p, DecimalString(n)) == Deposited(n, p.(balance := p.balance + n))
    ensures n < MinDeposit ==> Deposit(p, DecimalString(n)) == InvalidAmount
  {
    ParseDecimalString(n);
  }

  /** Text without a digit is always refused. */
  lemma DepositWithoutDigits(p: UserProfile, text: string)
    requires forall i :: 0 <= i < |text| ==> !IsDigit(text[i])
    ensures Deposit(p, text) == InvalidAmount
  {
    NoDigitsDropAll(text);
  }

  lemma {:induction false} NoDigitsDropAll(text: string)
    requires forall i :: 0 <= i < |text| ==> !IsDigit(text[i])
    ensures DigitsOnly(text) == []
  {
    if text != [] {
      NoDigitsDropAll(text[1..]);
      DigitsOnlyAppend([text[0]], text[1..]);
      assert [text[0]] + text[1..] == text;
    }
  }

  /** Characters other than digits do not change the amount, wherever they stand. */
  lemma DepositIgnoresNonDigits(p: UserProfile, before: string, sep: string, after: string)
    requires forall i :: 0 <= i < |sep| ==> !IsDigit(sep[i])
    ensures Deposit(p, before + sep + after) == Deposit(p, before + after)
  {
    NoDigitsDropAll(sep);
    DigitsOnlyAppend(before + sep, after);
    DigitsOnlyAppend(before, sep);
    DigitsOnlyAppend(before, after);
    assert DigitsOnly(before + sep) == DigitsOnly(before) + [];
    assert DigitsOnly(before) + [] == DigitsOnly(before);
  }

  /** Leading zeros do not change the amount: "010000" is credited like "10000". */
  lemma DepositLeadingZero(p: UserProfile, text: string)
    ensures Deposit(p, "0" + text) == Deposit(p, text)
  {
    DigitsOnlyAppend("0", text);
    assert DigitsOnly("0") == "0";
    if DigitsOnly(text) != [] {
      ParseLeadingZero(DigitsOnly(text));
    }
  }

  /** A thousands separator does not change the amount: "50.000" is read as "50000". */
  lemma DepositWithSeparator(p: UserProfile)
    ensures Deposit(p, "50.000") == Deposit(p, "50000")
  {
    DepositIgnoresNonDigits(p, "50", ".", "000");
    assert "50" + "." + "000" == "50.000";
    assert "50" + "000" == "50000";
  }

  /** A top-up and an upgrade never make a non-negative balance negative. */
  lemma BalanceStaysNonNegative(p: UserProfile, text: string, confirmed: bool)
    requires p.balance >= 0
    ensures Deposit(p, text).Deposited? ==> Deposit(p, text).profile.balance >= p.balance
    ensures Upgrade(p, confirmed).Upgraded? ==> Upgrade(p, confirmed).profile.balance >= 0
  {
  }

  /** Upgrading is done once: after an upgrade, the button only reports that the student is
      already Pro, and the balance is not charged again. */
  lemma UpgradeOnce(p: UserProfile, c1: bool, c2: bool)
    requires Upgrade(p, c1).Upgraded?
    ensures Upgrade(Upgrade(p, c1).profile, c2) == AlreadyPro
  {
  }

  /** The initial profile (balance 2 500 000, not Pro) can upgrade, leaving 2 461 000. */
  lemma InitialProfileUpgrades(draw: nat)
    requires draw < 900000
    ensures Upgrade(App.InitialProfile(draw), true) ==
      Upgraded(App.InitialProfile(draw).(balance := 2461000, isPro := true))
  {
  }

  /** Adding a grade appends exactly one grade when the subject and the score are given and
      leaves every other field, and the earlier grades, as they were. */
  lemma AddGradeSpec(p: UserProfile, subject: string, scoreNumber: string, scoreLetter: string, id: string)
    ensures var q := AddGrade(p, NewGrade(subject, scoreNumber, scoreLetter, id));
      q.(grades := p.grades) == p &&
      q.grades[..|p.grades|] == p.grades &&
      (subject != "" && scoreNumber != "" <==> |q.grades| == |p.grades| + 1) &&
      (subject == "" || scoreNumber == "" <==> |q.grades| == |p.grades|)
  {
  }

  /** A subject made only of spaces is accepted, unlike the timetable's subject. */
  lemma BlankGradeSubjectAccepted(p: UserProfile, id: string)
    ensures AddGrade(p, NewGrade(" ", "9", "", id)).grades == p.grades + [UserGrade(id, " ", "9", "N/A")]
  {
  }

  /** A click flips the clicked subject and keeps every other selection. */
  lemma ToggleMembership(selected: seq<string>, s: string)
    ensures s in ToggleSubject(selected, s) <==> s !in selected
    ensures forall x :: x != s ==> (x in ToggleSubject(selected, s) <==> x in selected)
  {
    if s in selected {
      var r := Seqs.Filter(selected, (x: string) => x != s);
      forall x | x != s && x in selected ensures x in r {
        var i :| 0 <= i < |selected| && selected[i] == x;
      }
    }
  }

  /** Clicking the same subject twice restores the selection, as a set. */
  lemma ToggleTwice(selected: seq<string>, s: string)
    ensures forall x :: x in ToggleSubject(ToggleSubject(selected, s), s) <==> x in selected
  {
    ToggleMembership(selected, s);
    ToggleMembership(ToggleSubject(selected, s), s);
  }

  /** A click never selects a subject twice. */
  lemma ToggleKeepsDistinct(selected: seq<string>, s: string)
    requires Distinct(selected)
    ensures Distinct(ToggleSubject(selected, s))
  {
    if s in selected {
      Seqs.FilterUniqueKeys(selected, (x: string) => x != s, Same);
    } else {
      Seqs.UniqueKeysAppend(selected, [s], Same);
    }
  }

  /** Any series of clicks from an empty form selects every subject at most once. */
  lemma {:induction false} ToggleAllDistinct(selected: seq<string>, clicks: seq<string>)
    requires Distinct(selected)
    ensures Distinct(ToggleAll(selected, clicks))
    decreases |clicks|
  {
    if clicks != [] {
      ToggleKeepsDistinct(selected, clicks[0]);
      ToggleAllDistinct(ToggleSubject(selected, clicks[0]), clicks[1..]);
    }
  }
}
