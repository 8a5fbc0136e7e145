/** The social-media auto-poster's schedule (python-auto-posting/app.py):
 *  the posting window, the three daily times and their "HH:MM" form, and
 *  when a post is made or the day is rescheduled. The clock and the random
 *  sample are inputs; generating and sending the post are left out. */
module AutoPoster {
  import Text

  /** A `datetime.time`. */
  datatype Time = Time(hour: int, minute: int, second: int, micro: int)

  predicate ValidTime(t: Time)
  {
    0 <= t.hour < 24 && 0 <= t.minute < 60 && 0 <= t.second < 60 && 0 <= t.micro < 1000000
  }

  /** Times compare field by field, which is the order of this count. */
  function Micros(t: Time): int
  {
    ((t.hour * 60 + t.minute) * 60 + t.second) * 1000000 + t.micro
  }

  /** `is_within_posting_hours`: from 08:00 to 17:00, both included. */
  predicate WithinPostingHours(t: Time)
  {
    Micros(Time(8, 0, 0, 0)) <= Micros(t) <= Micros(Time(17, 0, 0, 0))
  }

  /** In terms of the clock's fields: any time in hours 8 to 16, and 17:00
   *  sharp but not a microsecond later. */
  lemma WithinPostingHoursFields(t: Time)
    requires ValidTime(t)
    ensures WithinPostingHours(t) <==>
      (8 <= t.hour < 17 || (t.hour == 17 && t.minute == 0 && t.second == 0 && t.micro == 0))
  {
    var within := t.second * 1000000 + t.micro;
    assert 0 <= within < 60000000;
    assert Micros(t) == (t.hour * 60 + t.minute) * 60000000 + within;
  }

  /** Minutes in the window the times are drawn from: 9 hours. */
  const WindowMinutes := 9 * 60

  /** What `random.sample(range(540), 3)` can return. */
  predicate ValidSample(offsets: seq<int>)
  {
    |offsets| == 3 && (forall i :: 0 <= i < 3 ==> 0 <= offsets[i] < WindowMinutes) &&
    offsets[0] != offsets[1] && offsets[0] != offsets[2] && offsets[1] != offsets[2]
  }

  /** `f"{n:02d}"` for a natural number. */
  function Pad2(n: nat): (r: string)
    ensures |r| >= 2 && Text.AllDigits(r)
    ensures n < 100 ==> |r| == 2
  {
    if n < 10 then ['0', ('0' as int + n) as char]
    else
      assert n < 100 ==> |Text.NatToString(n / 10)| == 1;
      Text.NatToString(n)
  }

  lemma Pad2Value(n: nat)
    ensures Text.DigitsValue(Pad2(n)) == n
  {
    if n < 10 {
      var r := Pad2(n);
      assert r[..1] == ['0'];
      assert Text.DigitsValue(r[..1]) == 0 by {
        assert r[..1][..0] == [];
      }
    } else {
      Text.NatToStringValue(n);
    }
  }

  /** The hour and minute an offset stands for. */
  function HourOf(m: nat): nat
  {
    8 + m / 60
  }

  function MinuteOf(m: nat): nat
  {
    m % 60
  }

  /** The "HH:MM" text an offset is scheduled at. */
  function Clock(m: nat): (r: string)
    ensures m < WindowMinutes ==> |r| == 5 && r[2] == ':'
  {
    Pad2(HourOf(m)) + ":" + Pad2(MinuteOf(m))
  }

  /** Reading the text back gives the hour and the minute: the two digits
   *  before the colon are `8 + m div 60`, the two after `m mod 60`. */
  lemma ClockRoundTrip(m: nat)
    requires m < WindowMinutes
    ensures var r := Clock(m);
      Text.AllDigits(r[..2]) && Text.AllDigits(r[3..]) &&
      Text.DigitsValue(r[..2]) == HourOf(m) && Text.DigitsValue(r[3..]) == MinuteOf(m)
  {
    var r := Clock(m);
    assert r[..2] == Pad2(HourOf(m));
    assert r[3..] == Pad2(MinuteOf(m));
    Pad2Value(HourOf(m));
    Pad2Value(MinuteOf(m));
  }

  /** Every offset in the window is scheduled between 08:00 and 16:59, so
   *  inside the posting hours, and different offsets get different texts. */
  lemma ScheduledTimesPost(m: nat, n: nat)
    requires m < WindowMinutes && n < WindowMinutes
    ensures 8 <= HourOf(m) <= 16 && MinuteOf(m) <= 59
    ensures WithinPostingHours(Time(HourOf(m), MinuteOf(m), 0, 0))
    ensures m != n ==> Clock(m) != Clock(n)
  {
    if m != n && Clock(m) == Clock(n) {
      ClockRoundTrip(m);
      ClockRoundTrip(n);
    }
  }

  /** `schedule_posts_for_today`: the old jobs are cleared and one daily job
   *  is registered per offset, at its "HH:MM" text. */
  function ScheduleForToday(jobs: seq<string>, offsets: seq<nat>): (r: seq<string>)
    ensures |r| == |offsets|
    ensures forall i :: 0 <= i < |offsets| ==> r[i] == Clock(offsets[i])
  {
    seq(|offsets|, i requires 0 <= i < |offsets| => Clock(offsets[i]))
  }

  /** A sample schedules three different times, all inside the posting
   *  hours, whatever was scheduled before. */
  lemma ScheduleIsThreeDistinctTimes(jobs: seq<string>, offsets: seq<nat>)
    requires ValidSample(offsets)
    ensures var r := ScheduleForToday(jobs, offsets);
      |r| == 3 && r[0] != r[1] && r[0] != r[2] && r[1] != r[2] &&
      forall i :: 0 <= i < 3 ==> WithinPostingHours(Time(HourOf(offsets[i]), MinuteOf(offsets[i]), 0, 0))
  {
    ScheduledTimesPost(offsets[0], offsets[1]);
    ScheduledTimesPost(offsets[0], offsets[2]);
    ScheduledTimesPost(offsets[1], offsets[2]);
    ScheduledTimesPost(offsets[2], offsets[0]);
  }

  /** `make_post`: a post is made only within the posting hours, that is,
   *  for a clock time, in hours 8 to 16 or at 17:00 sharp. */
  function MakePost(now: Time): (posted: bool)
    ensures ValidTime(now) ==>
      (posted <==> 8 <= now.hour < 17 || (now.hour == 17 && now.minute == 0 && now.second == 0 && now.micro == 0))
  {
    if ValidTime(now) then
      WithinPostingHoursFields(now);
      WithinPostingHours(now)
    else WithinPostingHours(now)
  }

  /** The scheduler loop reschedules only before 08:00. */
  predicate Reschedules(now: Time)
  {
    Micros(now) < Micros(Time(8, 0, 0, 0))
  }

  /** Rescheduling and posting never happen at the same clock time, and a
   *  valid time after 17:00 does neither. */
  lemma RescheduleOutsideHours(now: Time)
    requires ValidTime(now)
    ensures !(Reschedules(now) && MakePost(now))
    ensures Reschedules(now) <==> now.hour < 8
    ensures now.hour >= 18 ==> !Reschedules(now) && !MakePost(now)
  {
    WithinPostingHoursFields(now);
    var within := (now.minute * 60 + now.second) * 1000000 + now.micro;
    assert 0 <= within < 3600000000;
    assert Micros(now) == now.hour * 3600000000 + within;
  }
}
