/**
 * The invitation screen's countdown. While an invitation code is shown, a tick once a second
 * compares the code's expiry with the clock: a positive number of milliseconds left is shown
 * as unpadded minutes, a colon and two-digit seconds; otherwise the display says the code
 * expired, the code and its expiry are dropped and the countdown stops. Instants are
 * milliseconds, and the clock reading is a parameter of the tick.
 */
module InviteScreen {
  import opened Wrappers
  import opened JsText
  import PomodoroTimer

  const ExpiredText := "Expired"

  /** The display for `diff` milliseconds left: `${minutes}:${seconds.padStart(2, '0')}` with
      whole minutes and the whole seconds of the rest. */
  function Countdown(diff: nat): string {
    NatToString(diff / 60000) + ":" + Pad2((diff % 60000) / 1000)
  }

  /** A clock text: a numeral, a colon and two digits, reading `m` and `sc`. */
  predicate ClockShape(r: string, m: nat, sc: nat) {
    && |r| >= 4 && r[|r| - 3] == ':'
    && AllDigits(r[..|r| - 3]) && DecimalValue(r[..|r| - 3]) == m
    && AllDigits(r[|r| - 2..]) && DecimalValue(r[|r| - 2..]) == sc
  }

  /** The fields of the display: the minutes as written by `toString` (no padding, so a
      leading zero only for no whole minute), a colon, and two digits of seconds below 60. */
  lemma CountdownFields(diff: nat)
    ensures ClockShape(Countdown(diff), diff / 60000, (diff % 60000) / 1000)
    ensures (diff % 60000) / 1000 < 60
    ensures Countdown(diff)[0] == '0' ==> diff < 60000
  {
    var mm, ss := NatToString(diff / 60000), Pad2((diff % 60000) / 1000);
    assert (diff % 60000) / 1000 < 60;
    assert |ss| == 2;
    DecimalValueOfNatToString(diff / 60000);
    MinutesThenSeconds(mm, ss);
  }

  lemma MinutesThenSeconds(mm: string, ss: string)
    requires |mm| >= 1 && |ss| == 2
    ensures var r := mm + ":" + ss;
      |r| >= 4 && r[|r| - 3] == ':' && r[..|r| - 3] == mm && r[|r| - 2..] == ss && r[0] == mm[0]
  {
  }

  /** Whole minutes and the whole seconds of the rest add up to the whole seconds left. */
  lemma WholeSeconds(diff: nat, m: nat, sc: nat)
    requires m == diff / 60000 && sc == (diff % 60000) / 1000
    ensures m * 60 + sc == diff / 1000
  {
    var rest := diff % 60000;
    assert diff == 1000 * (60 * m + sc) + rest % 1000;
  }

  /** Read as a clock, the display gives back the whole seconds left. */
  lemma CountdownReadsBack(diff: nat)
    ensures PomodoroTimer.ReadTime(Countdown(diff)) == Some(diff / 1000)
  {
    CountdownFields(diff);
    FieldsReadBack(Countdown(diff), diff);
  }

  lemma FieldsReadBack(r: string, diff: nat)
    requires ClockShape(r, diff / 60000, (diff % 60000) / 1000)
    ensures PomodoroTimer.ReadTime(r) == Some(diff / 1000)
  {
    var m, sc := DecimalValue(r[..|r| - 3]), DecimalValue(r[|r| - 2..]);
    WholeSeconds(diff, m, sc);
    PomodoroTimer.ReadTimeFields(r, diff / 1000);
  }

  /** A countdown can never be mistaken for the expiry notice: it starts with a digit. */
  lemma CountdownNotExpired(diff: nat)
    ensures Countdown(diff) != ExpiredText
  {
    var mm := NatToString(diff / 60000);
    assert Countdown(diff)[0] == mm[0];
    assert IsDigit(mm[0]);
  }

  /** What a tick shows for an expiry at `now`: the notice once nothing is left, else the
      time left. */
  function Display(expiry: int, now: int): string {
    if expiry - now <= 0 then ExpiredText else Countdown(expiry - now)
  }

  /** A tick shows the notice exactly when no time is left, and otherwise a clock that reads
      back as the whole seconds left. */
  lemma DisplayMeaning(expiry: int, now: int)
    ensures Display(expiry, now) == ExpiredText <==> expiry - now <= 0
    ensures expiry - now > 0 ==>
      PomodoroTimer.ReadTime(Display(expiry, now)) == Some((expiry - now) / 1000)
  {
    if expiry - now > 0 {
      CountdownNotExpired(expiry - now);
      CountdownReadsBack(expiry - now);
    }
  }

  /** The screen's state; `expiresAt` set is what keeps the countdown running. */
  class InviteState {
    var currentCode: Option<string>
    var expiresAt: Option<int>
    var timeRemaining: string
    var loading: bool

    /** A code is shown exactly while it has an expiry. */
    predicate Valid()
      reads this
    {
      currentCode.None? <==> expiresAt.None?
    }

    predicate Counting()
      reads this
    {
      expiresAt.Some?
    }

    constructor ()
      ensures Valid() && !Counting()
      ensures currentCode == None && expiresAt == None && timeRemaining == "" && !loading
    {
      currentCode, expiresAt, timeRemaining, loading := None, None, "", false;
    }

    /** `handleGenerateCode`: an issued code replaces the shown one and starts its countdown;
        an error leaves the shown code alone. Loading is over either way. */
    method GenerateCode(issued: Option<(string, int)>)
      requires Valid()
      modifies this`currentCode, this`expiresAt, this`loading
      ensures Valid() && !loading
      ensures issued.Some? ==> currentCode == Some(issued.value.0) && expiresAt == Some(issued.value.1)
      ensures issued.None? ==> currentCode == old(currentCode) && expiresAt == old(expiresAt)
    {
      loading := false;
      if issued.Some? {
        currentCode := Some(issued.value.0);
        expiresAt := Some(issued.value.1);
      }
    }

    /** One tick of the countdown at clock reading `now`. Without an expiry nothing runs;
        with `diff <= 0` the display says expired, the code and expiry are cleared and the
        countdown stops; otherwise the display shows the time left and all else stays. */
    method Tick(now: int)
      requires Valid()
      modifies this`currentCode, this`expiresAt, this`timeRemaining
      ensures Valid()
      ensures old(expiresAt).None? ==>
        currentCode == old(currentCode) && expiresAt == old(expiresAt) && timeRemaining == old(timeRemaining)
      ensures old(expiresAt).Some? ==> timeRemaining == Display(old(expiresAt).value, now)
      ensures old(expiresAt).Some? && old(expiresAt).value - now <= 0 ==>
        currentCode == None && expiresAt == None && !Counting()
      ensures old(expiresAt).Some? && old(expiresAt).value - now > 0 ==>
        currentCode == old(currentCode) && expiresAt == old(expiresAt) && Counting()
    {
      if expiresAt.None? {
        return;
      }
      var diff := expiresAt.value - now;
      timeRemaining := Display(expiresAt.value, now);
      if diff <= 0 {
        currentCode := None;
        expiresAt := None;
      }
    }
  }
}
