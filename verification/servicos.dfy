/** The services page: `formatDuration` and the create-or-update choice of
    `handleSubmit`. The duration arrives as an integer already read by
    `parseInt`. */
module Servicos {
  import opened Wrappers
  import opened Seqs
  import opened Text
  import opened Schema

  predicate EndsWith(s: string, suffix: string) {
    |suffix| <= |s| && s[|s| - |suffix|..] == suffix
  }

  predicate IsHourMark(c: char) {
    c == 'h'
  }

  /** Reads "{h}h {m}" around the hour mark at `k`. */
  function ParseHoursAndMinutes(body: string, k: nat): Option<int>
    requires k < |body|
  {
    if k + 2 <= |body| && body[k + 1] == ' ' then
      match (ParseInt(body[..k]), ParseInt(body[k + 2..]))
      case (Some(h), Some(m)) => Some(h * 60 + m)
      case _ => None
    else None
  }

  /** Reads what precedes a "min" suffix: plain minutes, or hours and minutes. */
  function ParseMinutesBody(body: string): Option<int> {
    match FindIndex(body, IsHourMark)
    case None => ParseInt(body)
    case Some(k) => ParseHoursAndMinutes(body, k)
  }

  /** Reads a rendered duration back into minutes: the inverse of `FormatDuration`. */
  function ParseDuration(s: string): Option<int> {
    if EndsWith(s, "min") then ParseMinutesBody(s[..|s| - 3])
    else if EndsWith(s, "h") then
      match ParseInt(s[..|s| - 1])
      case Some(h) => Some(h * 60)
      case None => None
    else None
  }

  /** A rendered integer holds no 'h'. */
  lemma NoHourMark(n: int)
    ensures FindIndex(IntToString(n), IsHourMark) == None
  {
  }

  /** The first 'h' of "{h}h..." is the one after the hours. */
  lemma HourMarkAfter(n: int, rest: string)
    ensures FindIndex(IntToString(n) + "h" + rest, IsHourMark) == Some(|IntToString(n)|)
  {
    var hs := IntToString(n);
    var x := hs + "h" + rest;
    NoHourMark(n);
    assert forall j :: 0 <= j < |hs| ==> x[j] == hs[j];
    assert IsHourMark(x[|hs|]);
  }

  /** Dropping a suffix leaves the prefix. */
  lemma DropSuffix(p: string, suffix: string)
    ensures EndsWith(p + suffix, suffix)
    ensures (p + suffix)[..|p|] == p
  {
    assert (p + suffix)[|p|..] == suffix;
  }

  /** "{m}min" reads back as m minutes. */
  lemma MinutesReadBack(m: int)
    ensures ParseDuration(IntToString(m) + "min") == Some(m)
  {
    var ms := IntToString(m);
    DropSuffix(ms, "min");
    NoHourMark(m);
    IntRoundTrip(m);
    assert ParseMinutesBody(ms) == Some(m);
  }

  /** "{h}h" reads back as h hours. */
  lemma HoursReadBack(h: int)
    ensures ParseDuration(IntToString(h) + "h") == Some(h * 60)
  {
    var hs := IntToString(h);
    var s := hs + "h";
    DropSuffix(hs, "h");
    assert !EndsWith(s, "min") by {
      assert s[|s| - 1] == 'h';
    }
    IntRoundTrip(h);
  }

  /** "{h}h {r}" reads back as h hours and r minutes once the "min" is dropped. */
  lemma HoursAndMinutesBody(h: int, r: int)
    ensures ParseMinutesBody(IntToString(h) + "h " + IntToString(r)) == Some(h * 60 + r)
  {
    var hs, rs := IntToString(h), IntToString(r);
    var body := hs + "h" + (" " + rs);
    assert hs + "h " + rs == body;
    HourMarkAfter(h, " " + rs);
    assert body[|hs| + 1] == ' ';
    assert body[..|hs|] == hs;
    assert body[|hs| + 2..] == rs;
    IntRoundTrip(h);
    IntRoundTrip(r);
    assert ParseHoursAndMinutes(body, |hs|) == Some(h * 60 + r);
  }

  /** "{h}h {r}min" reads back as h hours and r minutes. */
  lemma HoursAndMinutesReadBack(h: int, r: int)
    ensures ParseDuration(IntToString(h) + "h " + IntToString(r) + "min") == Some(h * 60 + r)
  {
    DropSuffix(IntToString(h) + "h " + IntToString(r), "min");
    HoursAndMinutesBody(h, r);
  }

  /** `formatDuration`: under an hour as "{mins}min"; otherwise whole hours
      as "{h}h", or "{h}h {r}min" when minutes remain. Every result reads
      back as the minutes it was made from, so no two durations render alike. */
  function FormatDuration(mins: int): (r: string)
    ensures ParseDuration(r) == Some(mins)
  {
    if mins >= 60 then
      var hours := mins / 60;
      var rest := mins % 60;
      if rest > 0 then
        HoursAndMinutesReadBack(hours, rest);
        IntToString(hours) + "h " + IntToString(rest) + "min"
      else
        HoursReadBack(hours);
        IntToString(hours) + "h"
    else
      MinutesReadBack(mins);
      IntToString(mins) + "min"
  }

  /** Under an hour the result is "{mins}min", negative values included. */
  lemma UnderAnHour(mins: int)
    requires mins < 60
    ensures FormatDuration(mins) == IntToString(mins) + "min"
  {
  }

  /** Whole hours: "{h}h" with h = mins / 60. */
  lemma WholeHours(mins: int)
    requires mins >= 60 && mins % 60 == 0
    ensures FormatDuration(mins) == IntToString(mins / 60) + "h"
  {
  }

  /** Hours and minutes: "{h}h {r}min" where 1 <= r <= 59 and h * 60 + r recombines to mins. */
  lemma HoursAndMinutes(mins: int)
    requires mins >= 60 && mins % 60 != 0
    ensures var h, r := mins / 60, mins % 60;
            && 1 <= r <= 59 && h >= 1 && h * 60 + r == mins
            && FormatDuration(mins) == IntToString(h) + "h " + IntToString(r) + "min"
  {
  }

  /** What `handleSubmit` sends: a PUT of the form data for the record being
      edited, or a POST of a new one. The services and products pages share
      this choice. */
  datatype SubmitAction<D> = UpdateRecord(id: Id, data: D) | CreateRecord(data: D)

  /** `handleSubmit(data)`, given the id of the record being edited, if any:
      update when a record is being edited, create otherwise. */
  function HandleSubmit<D>(editing: Option<Id>, data: D): (r: SubmitAction<D>)
    ensures r.data == data
    ensures r.UpdateRecord? <==> editing.Some?
    ensures r.UpdateRecord? ==> r.id == editing.value
  {
    match editing
    case Some(id) => UpdateRecord(id, data)
    case None => CreateRecord(data)
  }
}
