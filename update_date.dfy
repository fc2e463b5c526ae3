/** The `updateDate` timestamp of an artwork record: the compiled pattern
    `(\d+)-(\d+)-(\d+)T(\d+):(\d+):(\d+)\+09:00` applied with a match anchored only at the
    start, its six named groups, and the `datetime(...)` range check on their values. */
module UpdateDate {
  import opened Wrappers
  import opened Digits

  /** The six named groups `year`, `month`, `day`, `hour`, `minute`, `second`, as captured text. */
  datatype DateFields = DateFields(year: string, month: string, day: string,
                                   hour: string, minute: string, second: string)

  /** Every group is a non-empty digit run, as each `\d+` demands. */
  predicate ValidFields(f: DateFields) {
    IsDigitRun(f.year) && IsDigitRun(f.month) && IsDigitRun(f.day) &&
    IsDigitRun(f.hour) && IsDigitRun(f.minute) && IsDigitRun(f.second)
  }

  /** The fixed offset the pattern requires after the seconds. */
  const Offset: string := "+09:00"

  /** The text the pattern matches when its groups capture `f`. */
  function Format(f: DateFields): string {
    f.year + "-" + f.month + "-" + f.day + "T" + f.hour + ":" + f.minute + ":" + f.second + Offset
  }

  /** The pattern matches at the start of `s`: some valid groups whose text is a prefix of `s`. */
  ghost predicate Matches(s: string) {
    exists f: DateFields :: ValidFields(f) && Format(f) <= s
  }

  /** A captured group and the text left after the literal that follows it. */
  datatype Split = Split(run: string, rest: string)

  /** One `\d+` followed by the literal `sep`. Every literal of the pattern starts with a
      non-digit, so the greedy run is the only way `\d+` can be followed by `sep`. */
  function Group(s: string, sep: string): (r: Option<Split>)
    ensures r.Some? ==> IsDigitRun(r.value.run) && s == r.value.run + sep + r.value.rest
  {
    var n := RunLength(s);
    if n > 0 && sep <= s[n..] then
      assert s == s[..n] + sep + s[n + |sep|..] by {
        assert s[n..] == sep + s[n + |sep|..];
      }
      Some(Split(s[..n], s[n + |sep|..]))
    else None
  }

  /** `update_date_pattern.match(s)`: the six groups, or `None` when the pattern does not match. */
  function Parse(s: string): (r: Option<DateFields>)
    ensures r.Some? ==> ValidFields(r.value)
  {
    var y :- Group(s, "-");
    var mo :- Group(y.rest, "-");
    var d :- Group(mo.rest, "T");
    var h :- Group(d.rest, ":");
    var mi :- Group(h.rest, ":");
    var se :- Group(mi.rest, Offset);
    Some(DateFields(y.run, mo.run, d.run, h.run, mi.run, se.run))
  }

  /** A digit run followed by a literal that starts with a non-digit is split off by `Group`. */
  lemma GroupOf(p: string, sep: string, rest: string)
    requires IsDigitRun(p)
    requires |sep| > 0 && !IsDigit(sep[0])
    ensures Group(p + sep + rest, sep) == Some(Split(p, rest))
  {
    var s := p + sep + rest;
    assert s == p + (sep + rest);
    RunLengthOf(p, sep + rest);
    assert s[..|p|] == p;
    assert s[|p|..] == sep + rest;
    assert s[|p| + |sep|..] == rest;
  }

  /** `Format(f) + suffix`, associated to the right, group by group. */
  function Nested(f: DateFields, suffix: string): string {
    f.year + "-" + (f.month + "-" + (f.day + "T" + (f.hour + ":" + (f.minute + ":" +
      (f.second + Offset + suffix)))))
  }

  lemma FormatNested(f: DateFields, suffix: string)
    ensures Format(f) + suffix == Nested(f, suffix)
  {
  }

  /** Round trip: the text of any valid groups, with anything after it, parses back to them. */
  lemma ParseFormat(f: DateFields, suffix: string)
    requires ValidFields(f)
    ensures Parse(Format(f) + suffix) == Some(f)
  {
    var t6 := f.second + Offset + suffix;
    var t5 := f.minute + ":" + t6;
    var t4 := f.hour + ":" + t5;
    var t3 := f.day + "T" + t4;
    var t2 := f.month + "-" + t3;
    FormatNested(f, suffix);
    GroupOf(f.year, "-", t2);
    GroupOf(f.month, "-", t3);
    GroupOf(f.day, "T", t4);
    GroupOf(f.hour, ":", t5);
    GroupOf(f.minute, ":", t6);
    GroupOf(f.second, Offset, suffix);
  }

  /** Soundness: a successful parse returns valid groups whose text begins `s`; there are no
      partial results. */
  lemma ParseSound(s: string)
    ensures Parse(s).Some? ==> ValidFields(Parse(s).value) && Format(Parse(s).value) <= s
  {
    if Parse(s).Some? {
      var y := Group(s, "-").value;
      var mo := Group(y.rest, "-").value;
      var d := Group(mo.rest, "T").value;
      var h := Group(d.rest, ":").value;
      var mi := Group(h.rest, ":").value;
      var se := Group(mi.rest, Offset).value;
      var f := Parse(s).value;
      assert s == Nested(f, se.rest);
      FormatNested(f, se.rest);
    }
  }

  /** The parse succeeds exactly when the pattern matches at the start, and then it returns the
      one set of groups that does. */
  lemma ParseIffMatches(s: string)
    ensures Parse(s).Some? <==> Matches(s)
    ensures forall f :: ValidFields(f) && Format(f) <= s ==> Parse(s) == Some(f)
  {
    forall f | ValidFields(f) && Format(f) <= s
      ensures Parse(s) == Some(f)
    {
      var suffix := s[|Format(f)|..];
      assert s == Format(f) + suffix;
      ParseFormat(f, suffix);
    }
    ParseSound(s);
  }

  /** A text that does not begin with the six-group pattern and the offset is rejected. */
  lemma ParseRejects(s: string)
    requires !Matches(s)
    ensures Parse(s) == None
  {
    ParseIffMatches(s);
  }

  /** The naive local date and time built from the groups; the offset is not applied. */
  datatype DateTime = DateTime(year: int, month: int, day: int, hour: int, minute: int, second: int)

  predicate IsLeapYear(y: int) { y % 4 == 0 && (y % 100 != 0 || y % 400 == 0) }

  function DaysInMonth(y: int, m: int): (n: int)
    requires 1 <= m <= 12
    ensures 28 <= n <= 31
  {
    if m == 2 then (if IsLeapYear(y) then 29 else 28)
    else if m == 4 || m == 6 || m == 9 || m == 11 then 30
    else 31
  }

  /** The ranges `datetime(...)` accepts; it raises for anything else. */
  predicate InRange(t: DateTime) {
    1 <= t.year <= 9999 && 1 <= t.month <= 12 && 1 <= t.day <= DaysInMonth(t.year, t.month) &&
    0 <= t.hour <= 23 && 0 <= t.minute <= 59 && 0 <= t.second <= 59
  }

  /** `datetime(**{k: int(v) for k, v in d.items()})`: the values of the groups, or `None`
      where the constructor raises. */
  function MakeDateTime(f: DateFields): (r: Option<DateTime>)
    requires ValidFields(f)
    ensures r.Some? <==> InRange(DateTime(Value(f.year), Value(f.month), Value(f.day),
                                          Value(f.hour), Value(f.minute), Value(f.second)))
    ensures r.Some? ==> InRange(r.value)
    ensures r.Some? ==> r.value.year == Value(f.year) && r.value.month == Value(f.month) &&
                        r.value.day == Value(f.day) && r.value.hour == Value(f.hour) &&
                        r.value.minute == Value(f.minute) && r.value.second == Value(f.second)
  {
    var t := DateTime(Value(f.year), Value(f.month), Value(f.day),
                      Value(f.hour), Value(f.minute), Value(f.second));
    if InRange(t) then Some(t) else None
  }
}
