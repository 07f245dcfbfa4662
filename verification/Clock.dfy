/** Time bounds: from the words a request may use to an instant, and to the stamp a plan carries.
    Instants are integer nanoseconds since the Unix epoch. */
module Clock {
  import opened Basics
  import opened Text

  type Instant = int

  const SECOND := 1_000_000_000
  const MINUTE := 60 * SECOND
  const HOUR := 3600 * SECOND

  /** How far back a request may reach. */
  const MAX_SINCE_AGE := 400 * 24 * HOUR

  /** The zero value of a time, which is how an absent bound is spelled. */
  const ZERO_TIME: Instant := -62_135_596_800 * SECOND

  /** The first instants of year 0 and of year 10000. RFC 3339 has four year digits. */
  const YEAR_ZERO: Instant := -62_167_219_200 * SECOND
  const YEAR_TEN_THOUSAND: Instant := 253_402_300_800 * SECOND

  /** The standard library's view of text and time. Calendar arithmetic, the local zone and the
      printers are values of this record; `Lawful` states what is relied on. */
  datatype Library = Library(
    runes: Runes,
    rfc3339: string -> Option<Instant>,
    date: string -> Option<Instant>,
    duration: string -> Option<int>,
    format: Instant -> string,
    midnight: Instant -> Instant,
    addDays: (Instant, int) -> Instant)
  {
    /** Printing gives an RFC 3339 text of whole seconds that no other accepted form matches, and
        that reads back while the year has four digits. */
    ghost predicate Lawful() {
      && (forall t: Instant :: rfc3339(format(t)) == if Printable(t) then Some(WholeSecond(t)) else None)
      && (forall t: Instant :: format(WholeSecond(t)) == format(t))
      && (forall t: Instant :: IsStamp(format(t)))
    }

    /** The shape of a printed time: short, not blank, and no date, day window, duration or word. */
    ghost predicate IsStamp(s: string) {
      && 2 <= |s| && ByteLen(s) <= 64 && s[|s| - 1] == 'Z'
      && date(s) == None && duration(s) == None
      && Lowered(s) != "today" && Lowered(s) != "yesterday"
    }

    /** strings.ToLower(strings.TrimSpace(value)) */
    function Lowered(value: string): string {
      Lower(runes, TrimSpace(value))
    }
  }

  predicate Printable(t: Instant) {
    YEAR_ZERO <= t < YEAR_TEN_THOUSAND
  }

  /** A time with its nanoseconds dropped. */
  function WholeSecond(t: Instant): Instant {
    t / SECOND * SECOND
  }

  /** Two's-complement wrap of a 64-bit product. */
  function Wrap64(n: int): int {
    (n + 0x8000_0000_0000_0000) % 0x1_0000_0000_0000_0000 - 0x8000_0000_0000_0000
  }

  datatype TimeError = TooLong | InFuture | TooOld | NotPast | Unrecognized

  /** Refuses an instant more than a minute ahead or more than the maximum age behind. */
  function Bound(moment: Instant, now: Instant): Result<Instant, TimeError> {
    if moment > now + MINUTE then Err(InFuture)
    else if now - moment > MAX_SINCE_AGE then Err(TooOld)
    else Ok(moment)
  }

  /** The "7d" form, read as that many hours times twenty-four in 64-bit arithmetic. */
  function ParseDays(lib: Library, value: string): Option<int> {
    if |value| < 2 || value[|value| - 1] != 'd' then None
    else match lib.duration(value[..|value| - 1] + "h")
      case Some(hours) => Some(Wrap64(hours * 24))
      case None => None
  }

  function ParseSince(lib: Library, value: string, now: Instant): Result<Instant, TimeError> {
    if value == "" then Ok(ZERO_TIME)
    else if ByteLen(value) > 64 then Err(TooLong)
    else if lib.Lowered(value) == "today" then Bound(lib.midnight(now), now)
    else if lib.Lowered(value) == "yesterday" then Bound(lib.addDays(lib.midnight(now), -1), now)
    else match lib.rfc3339(value)
      case Some(moment) => Bound(moment, now)
      case None =>
        match lib.date(value)
        case Some(day) => Bound(day, now)
        case None =>
          match ParseDays(lib, value)
          case Some(days) => Bound(now + Wrap64(-days), now)
          case None =>
            match lib.duration(value)
            case Some(window) => if window <= 0 then Err(NotPast) else Bound(now - window, now)
            case None => Err(Unrecognized)
  }

  /** Closes a window: a plain date or a day word means the end of that day. */
  function ParseUntil(lib: Library, value: string, now: Instant): Result<Instant, TimeError> {
    if value == "" then Ok(ZERO_TIME)
    else match lib.date(value)
      case Some(day) => Ok(lib.addDays(day, 1))
      case None =>
        if lib.Lowered(value) == "today" then Ok(lib.addDays(lib.midnight(now), 1))
        else if lib.Lowered(value) == "yesterday" then Ok(lib.midnight(now))
        else ParseSince(lib, value, now)
  }

  /** What a step carries for a bound: nothing for the zero time, a stamp otherwise. */
  function Stamp(lib: Library, t: Instant): string {
    if t == ZERO_TIME then "" else lib.format(t)
  }

  /** An instant a clock reading accepts as a bound. */
  predicate InWindow(t: Instant, now: Instant) {
    now - MAX_SINCE_AGE <= t <= now + MINUTE
  }

  /** Every accepted lower bound lies within the window of its own clock reading, and no bound can
      resolve outside it: this is what keeps a request from reaching years back. */
  lemma SinceIsBounded(lib: Library, value: string, now: Instant)
    ensures ParseSince(lib, value, now).Ok? ==>
      (if value == "" then ParseSince(lib, value, now).value == ZERO_TIME
       else InWindow(ParseSince(lib, value, now).value, now))
  {}

  /** The upper bound is less guarded than the lower one: the end of a day is never compared with
      the clock, every other form is. */
  lemma UntilIsBoundedUnlessADay(lib: Library, value: string, now: Instant)
    ensures ParseUntil(lib, value, now).Ok? && value != "" && lib.date(value) == None
        && lib.Lowered(value) != "today" && lib.Lowered(value) != "yesterday"
      ==> InWindow(ParseUntil(lib, value, now).value, now)
  {
    SinceIsBounded(lib, value, now);
  }

  /** Reading a printed bound back at another clock gives its whole second, or refuses it. */
  lemma ReadBack(lib: Library, t: Instant, now: Instant)
    requires lib.Lawful()
    ensures var again := ParseSince(lib, lib.format(t), now);
      && ParseUntil(lib, lib.format(t), now) == again
      && (again.Ok? <==> Printable(t) && InWindow(WholeSecond(t), now))
      && (again.Ok? ==> again.value == WholeSecond(t))
  {
    var s := lib.format(t);
    assert lib.IsStamp(s);
    assert lib.rfc3339(s) == if Printable(t) then Some(WholeSecond(t)) else None;
  }

  lemma WholeSecondBounds(t: Instant)
    ensures t - SECOND < WholeSecond(t) <= t
    ensures WholeSecond(WholeSecond(t)) == WholeSecond(t)
    ensures t % SECOND == 0 <==> WholeSecond(t) == t
  {}

  /** The windows "yesterday" and "today" meet at local midnight and "today" closes at the next one,
      so neither overlaps or misses part of a day, whatever the zone. */
  lemma DayWordsMeetAtMidnight(lib: Library, now: Instant)
    requires lib.date("today") == None && lib.date("yesterday") == None
    requires InWindow(lib.midnight(now), now) && InWindow(lib.addDays(lib.midnight(now), -1), now)
    ensures ParseSince(lib, "yesterday", now) == Ok(lib.addDays(lib.midnight(now), -1))
    ensures ParseUntil(lib, "yesterday", now) == Ok(lib.midnight(now)) == ParseSince(lib, "today", now)
    ensures ParseUntil(lib, "today", now) == Ok(lib.addDays(lib.midnight(now), 1))
  {
    hide ByteLen, TrimSpace, Lower, Bound;
    PlainWord(lib, "today");
    PlainWord(lib, "yesterday");
    assert "today" != "yesterday";
    assert Bound(lib.midnight(now), now) == Ok(lib.midnight(now))
      && Bound(lib.addDays(lib.midnight(now), -1), now) == Ok(lib.addDays(lib.midnight(now), -1)) by {
      WithinBound(lib.midnight(now), now);
      WithinBound(lib.addDays(lib.midnight(now), -1), now);
    }
  }

  lemma WithinBound(t: Instant, now: Instant)
    ensures Bound(t, now) == Ok(t) <==> InWindow(t, now)
  {}

  lemma PlainWord(lib: Library, word: string)
    requires word != "" && forall i :: 0 <= i < |word| ==> 'a' <= word[i] <= 'z'
    ensures lib.Lowered(word) == word && ByteLen(word) == |word|
  {
    TrimSpaceFixed(word);
    AsciiLength(word);
  }

  /** A relative window reaches back from the clock by what it says: a duration is accepted iff it is
      positive and within the age limit, a day window iff it is within the limit and not more than a
      minute negative. As an until, the same text closes the window at the same instant. */
  lemma RelativeWindowsReachBack(lib: Library, value: string, now: Instant)
    requires value != "" && ByteLen(value) <= 64
    requires lib.Lowered(value) != "today" && lib.Lowered(value) != "yesterday"
    requires lib.rfc3339(value) == None && lib.date(value) == None
    ensures ParseUntil(lib, value, now) == ParseSince(lib, value, now)
    ensures match ParseDays(lib, value)
      case Some(days) =>
        days > -0x8000_0000_0000_0000 ==>
          (ParseSince(lib, value, now) == Ok(now - days) <==> -MINUTE <= days <= MAX_SINCE_AGE)
          && (ParseSince(lib, value, now).Ok? ==> ParseSince(lib, value, now) == Ok(now - days))
      case None =>
        match lib.duration(value)
        case Some(window) =>
          (ParseSince(lib, value, now) == Ok(now - window) <==> 0 < window <= MAX_SINCE_AGE)
          && (ParseSince(lib, value, now).Ok? ==> ParseSince(lib, value, now) == Ok(now - window))
        case None => ParseSince(lib, value, now) == Err(Unrecognized)
  {
    WrapBounds(lib, value);
  }

  lemma WrapBounds(lib: Library, value: string)
    ensures ParseDays(lib, value).Some? ==>
      var days := ParseDays(lib, value).value;
      && -0x8000_0000_0000_0000 <= days < 0x8000_0000_0000_0000
      && (days > -0x8000_0000_0000_0000 ==> Wrap64(-days) == -days)
  {}

  /** Absolute texts resolve to themselves when they are in the window: an RFC 3339 text to its
      instant, a date to the start of its local day, and as an until to the start of the next. */
  lemma AbsoluteTextsResolveToThemselves(lib: Library, value: string, now: Instant)
    requires value != "" && ByteLen(value) <= 64
    requires lib.Lowered(value) != "today" && lib.Lowered(value) != "yesterday"
    ensures lib.rfc3339(value).Some? ==>
      (ParseSince(lib, value, now) == Ok(lib.rfc3339(value).value) <==> InWindow(lib.rfc3339(value).value, now))
    ensures lib.rfc3339(value).None? && lib.date(value).Some? ==>
      (ParseSince(lib, value, now) == Ok(lib.date(value).value) <==> InWindow(lib.date(value).value, now))
    ensures lib.date(value).Some? ==> ParseUntil(lib, value, now) == Ok(lib.addDays(lib.date(value).value, 1))
  {}

  /** A day window reaches back exactly that many times twenty-four hours if and only if the product
      fits in 64 bits; past that it wraps. */
  lemma DayWindowIsExactUnlessItWraps(lib: Library, value: string)
    requires |value| >= 2 && value[|value| - 1] == 'd'
    requires lib.duration(value[..|value| - 1] + "h").Some?
    ensures var hours := lib.duration(value[..|value| - 1] + "h").value;
      ParseDays(lib, value) == Some(hours * 24) <==> -0x8000_0000_0000_0000 <= hours * 24 < 0x8000_0000_0000_0000
  {}

  /** So a request for 213504 days, some 584 years, is accepted as one for about 25 minutes. */
  lemma LongDayWindowIsAcceptedAsAShortOne(lib: Library, now: Instant)
    requires lib.rfc3339("213504d") == None && lib.date("213504d") == None
    requires lib.duration("213504h") == Some(213504 * HOUR)
    requires lib.Lowered("213504d") != "today" && lib.Lowered("213504d") != "yesterday"
    ensures ParseSince(lib, "213504d", now) == Ok(now - 1_526_290_448_384)
  {
    AsciiLength("213504d");
    assert "213504d"[..6] + "h" == "213504h";
    assert ParseDays(lib, "213504d") == Some(1_526_290_448_384);
  }

  // ------------------------------------------------------- a library that obeys

  /** A printer that is easy to invert: the seconds since year zero as two large digits. */
  function SampleFormat(t: Instant): string {
    if !Printable(t) then "-Z"
    else
      var n := (t - YEAR_ZERO) / SECOND;
      [(0x10000 + n / 1_000_000) as char, (0x10000 + n % 1_000_000) as char, 'Z']
  }

  function SampleRead(s: string): Option<Instant> {
    if |s| == 3 && (s[0] as int) >= 0x10000 && (s[1] as int) >= 0x10000 && s[2] == 'Z' then
      Some(YEAR_ZERO + ((s[0] as int - 0x10000) * 1_000_000 + (s[1] as int - 0x10000)) * SECOND)
    else None
  }

  const DAY := 24 * HOUR

  /** It knows one zone, UTC, two dates and a few durations. */
  function SampleDate(s: string): Option<Instant> {
    match s
    case "0000-12-31" => Some(ZERO_TIME - DAY)
    case "9999-12-31" => Some(YEAR_TEN_THOUSAND - DAY)
    case _ => None
  }

  function SampleDuration(s: string): Option<int> {
    match s
    case "200ms" => Some(200_000_000)
    case "400ms" => Some(400_000_000)
    case "400h" => Some(400 * HOUR)
    case "213504h" => Some(213504 * HOUR)
    case _ => None
  }

  function SampleLibrary(runes: Runes): Library {
    Library(runes, SampleRead, SampleDate, SampleDuration, SampleFormat, t => t - t % DAY, (t, n) => t + n * DAY)
  }

  lemma SampleReadsBack(t: Instant)
    ensures SampleRead(SampleFormat(t)) == if Printable(t) then Some(WholeSecond(t)) else None
    ensures SampleFormat(WholeSecond(t)) == SampleFormat(t)
  {
    assert YEAR_ZERO % SECOND == 0 && YEAR_TEN_THOUSAND % SECOND == 0;
    WholeSecondBounds(t);
    assert WholeSecond(t) - YEAR_ZERO == (t - YEAR_ZERO) / SECOND * SECOND;
  }

  lemma SampleIsStamp(lib: Library, t: Instant)
    requires lib == SampleLibrary(lib.runes)
    ensures lib.IsStamp(SampleFormat(t))
  {
    var s := SampleFormat(t);
    TrimSpaceFixed(s);
    assert lib.Lowered(s)[|s| - 1] == 'z';
    ByteLenBound(s);
  }

  /** What is assumed of the standard library can be had. */
  lemma LawfulLibrariesExist(runes: Runes)
    ensures SampleLibrary(runes).Lawful()
  {
    var lib := SampleLibrary(runes);
    forall t: Instant
      ensures lib.rfc3339(lib.format(t)) == if Printable(t) then Some(WholeSecond(t)) else None
      ensures lib.format(WholeSecond(t)) == lib.format(t)
      ensures lib.IsStamp(lib.format(t))
    {
      SampleReadsBack(t);
      SampleIsStamp(lib, t);
    }
  }
}
