/** Playtime display: the seconds a player has played, split into whole hours
    and the minutes left over, written either compactly ("3h 5m", in the
    player-stats table and the member cards) or in words ("3 hours 5 minutes",
    in the player details dialog). */
module Playtime {
  import opened Text
  import opened JsValues

  /** `stats.Playtime || 0`: a missing or null playtime counts as 0 seconds. */
  function Seconds(playtime: Option<int>): int {
    playtime.GetOr(0)
  }

  /** JavaScript's `a % 3600`: the remainder of the division truncated toward
      zero, so it carries the sign of `a`. */
  function RemHour(a: int): (r: int)
    ensures -3600 < r < 3600
    ensures (a - r) % 3600 == 0
    ensures a >= 0 ==> r >= 0
    ensures a <= 0 ==> r <= 0
  {
    if a >= 0 then a % 3600 else -((-a) % 3600)
  }

  /** Whole hours and the minutes left over. */
  datatype Split = Split(hours: int, minutes: int)

  /** `Math.floor(p / 3600)` and `Math.floor((p % 3600) / 60)`. For a
      non-negative playtime these are the hours and minutes it covers. */
  function SplitOf(p: int): (d: Split)
    ensures p >= 0 ==> && d.hours >= 0 && 0 <= d.minutes < 60
                       && d.hours * 3600 + d.minutes * 60 <= p < d.hours * 3600 + d.minutes * 60 + 60
    ensures p < 0 ==> d.hours < 0 && d.minutes <= 0
  {
    Split(p / 3600, RemHour(p) / 60)
  }

  /** The two ways playtime is written: compact (public/app.js:768-772,
      public/app.js:1002-1006) and in words (public/app.js:1072-1076). */
  datatype Style = Compact | Words

  function HourUnit(st: Style): string {
    if st == Compact then "h " else " hours "
  }

  function MinuteUnit(st: Style): string {
    if st == Compact then "m" else " minutes"
  }

  /** The hours are shown only when positive; the minutes always are. */
  function Format(playtime: Option<int>, st: Style): string {
    var d := SplitOf(Seconds(playtime));
    if d.hours > 0 then IntText(d.hours) + HourUnit(st) + IntText(d.minutes) + MinuteUnit(st)
    else IntText(d.minutes) + MinuteUnit(st)
  }

  /** Reads back a text Format writes for a non-negative playtime. */
  function Read(s: string, st: Style): Option<Split> {
    var k := LeadingDigits(s);
    if k == 0 then None
    else
      var first := Value(s[..k]);
      var after := s[k..];
      var unit := HourUnit(st);
      if after == MinuteUnit(st) then Some(Split(0, first))
      else if |after| >= |unit| && after[..|unit|] == unit then
        var rest := after[|unit|..];
        var j := LeadingDigits(rest);
        if j > 0 && rest[j..] == MinuteUnit(st) then Some(Split(first, Value(rest[..j]))) else None
      else None
  }

  /** A missing playtime reads as zero minutes. */
  lemma MissingPlaytime(st: Style)
    ensures Format(None, st) == "0" + MinuteUnit(st)
  {
  }

  /** A number followed by a unit is read as that number and that unit. */
  lemma NumberThenUnit(n: nat, rest: string)
    requires rest == [] || !IsDigit(rest[0])
    ensures var s := Show(n) + rest;
            LeadingDigits(s) == |Show(n)| && s[..|Show(n)|] == Show(n)
            && s[|Show(n)|..] == rest && Value(Show(n)) == n
  {
    LeadingDigitsOf(Show(n), rest);
    ValueShow(n);
  }

  /** Text with hours reads back as those hours and minutes. */
  lemma ReadHours(h: nat, m: nat, st: Style)
    requires h > 0
    ensures Read(Show(h) + HourUnit(st) + Show(m) + MinuteUnit(st), st) == Some(Split(h, m))
  {
    var unit := HourUnit(st);
    var tail := Show(m) + MinuteUnit(st);
    var after := unit + tail;
    assert Show(h) + HourUnit(st) + Show(m) + MinuteUnit(st) == Show(h) + after;
    NumberThenUnit(h, after);
    NumberThenUnit(m, MinuteUnit(st));
    assert after[..|unit|] == unit && after[|unit|..] == tail;
    assert |after| > |MinuteUnit(st)|;
  }

  /** Text without hours reads back as zero hours and those minutes. */
  lemma ReadMinutes(m: nat, st: Style)
    ensures Read(Show(m) + MinuteUnit(st), st) == Some(Split(0, m))
  {
    NumberThenUnit(m, MinuteUnit(st));
  }

  /** Reading the text back gives the hours and minutes it was written from. */
  lemma ReadFormat(p: nat, st: Style)
    ensures Read(Format(Some(p), st), st) == Some(SplitOf(p))
  {
    var d := SplitOf(p);
    if d.hours > 0 {
      ReadHours(d.hours, d.minutes, st);
    } else {
      ReadMinutes(d.minutes, st);
    }
  }

  /** Two playtimes are written alike exactly when they fall in the same
      whole minute. */
  lemma SameTextSameMinute(p: nat, q: nat, st: Style)
    ensures Format(Some(p), st) == Format(Some(q), st) <==> p / 60 == q / 60
  {
    var dp, dq := SplitOf(p), SplitOf(q);
    assert p / 60 == dp.hours * 60 + dp.minutes;
    assert q / 60 == dq.hours * 60 + dq.minutes;
    if Format(Some(p), st) == Format(Some(q), st) {
      ReadFormat(p, st);
      ReadFormat(q, st);
    }
    if p / 60 == q / 60 {
      assert dp.hours == (p / 60) / 60 && dq.hours == (q / 60) / 60;
    }
  }
}
