/**
 The fiscal temporal context (internal/fiscaltime). The calendar - RFC 3339 parsing, formatting and the zone
 table - is a parameter: a record of functions, with the laws the proofs rely on in `Sound`.
 Instants are nanoseconds since the epoch.
 */
module FiscalTime {
  import opened Prelude
  import opened Text
  import opened Numerals

  datatype Zoned = Zoned(instant: int, offsetSeconds: int)

  datatype Calendar = Calendar(
    parseRFC3339: string -> Option<Zoned>,
    formatMicro: int -> string,
    parseMicro: string -> Option<int>,
    knownZone: string -> bool,
    offsetAt: (string, int) -> int)

  datatype NormalizedIssued = NormalizedIssued(instantUTC: int, utcString: string, timezone: string, offsetMinutes: int)

  datatype Error = InvalidIssuedAt

  /** Years 0 to 9999, where the four-digit format can be read back. */
  predicate FourDigitYear(t: int) {
    -62_167_219_200_000_000_000 <= t < 253_402_300_800_000_000_000
  }

  function TruncateMicro(t: int): int {
    t - t % 1000
  }

  /** The laws of the calendar: micro formatting is invertible within its years, and zones change on whole seconds. */
  ghost predicate Sound(cal: Calendar) {
    && (forall t :: cal.formatMicro(t) != "" && Trimmed(cal.formatMicro(t)))
    && (forall t :: t % 1000 == 0 ==>
          cal.parseMicro(cal.formatMicro(t)) == if FourDigitYear(t) then Some(t) else None)
    && (forall z, t :: cal.offsetAt(z, t) == cal.offsetAt(z, t - t % 1_000_000_000))
  }

  predicate OffsetInRange(minutes: int) {
    -840 <= minutes <= 840
  }

  function NormalizeIssued(cal: Calendar, raw: string, ianaTZ: string): Result<NormalizedIssued, Error> {
    var text, zone := TrimSpace(raw), TrimSpace(ianaTZ);
    if text == "" || zone == "" || !cal.knownZone(zone) then Err(InvalidIssuedAt)
    else
      match cal.parseRFC3339(text)
      case None => Err(InvalidIssuedAt)
      case Some(t) =>
        var fiscalMinutes := TruncDiv(cal.offsetAt(zone, t.instant), 60);
        if TruncDiv(t.offsetSeconds, 60) != fiscalMinutes || !OffsetInRange(fiscalMinutes) then Err(InvalidIssuedAt)
        else
          var utc := TruncateMicro(t.instant);
          Ok(NormalizedIssued(utc, cal.formatMicro(utc), zone, fiscalMinutes))
  }

  predicate ValidNormalizedContext(cal: Calendar, utcMicro: string, ianaTZ: string, offsetMinutes: int) {
    var text, zone := TrimSpace(utcMicro), TrimSpace(ianaTZ);
    && text != "" && zone != ""
    && OffsetInRange(offsetMinutes)
    && match cal.parseMicro(text)
       case None => false
       case Some(t) =>
         var utc := TruncateMicro(t);
         && cal.formatMicro(utc) == text
         && cal.knownZone(zone)
         && TruncDiv(cal.offsetAt(zone, utc), 60) == offsetMinutes
  }

  /** Seconds and whole minutes agree: rounded toward zero, as Go divides. */
  predicate MinutesOf(seconds: int, minutes: int) {
    if seconds >= 0 then minutes >= 0 && 60 * minutes <= seconds < 60 * minutes + 60
    else minutes <= 0 && 60 * minutes - 60 < seconds <= 60 * minutes
  }

  lemma MinutesMean(seconds: int, minutes: int)
    ensures MinutesOf(seconds, minutes) <==> minutes == TruncDiv(seconds, 60)
  {
  }

  /**
   An instant and a zone normalise exactly when the text is an instant, the zone is known, and the text's offset is the
   zone's own at that instant, within fourteen hours; what comes out is that instant, whole microseconds down, its text
   in UTC, the zone and the offset in minutes.
   */
  lemma NormalizedMeans(cal: Calendar, raw: string, ianaTZ: string, n: NormalizedIssued)
    ensures NormalizeIssued(cal, raw, ianaTZ) == Ok(n) <==>
            && !Blank(raw) && !Blank(ianaTZ) && n.timezone == TrimSpace(ianaTZ) && cal.knownZone(n.timezone)
            && cal.parseRFC3339(TrimSpace(raw)).Some?
            && var t := cal.parseRFC3339(TrimSpace(raw)).value;
               && MinutesOf(t.offsetSeconds, n.offsetMinutes)
               && MinutesOf(cal.offsetAt(n.timezone, t.instant), n.offsetMinutes)
               && -14 * 60 <= n.offsetMinutes <= 14 * 60
               && n.instantUTC % 1000 == 0 && n.instantUTC <= t.instant < n.instantUTC + 1000
               && n.utcString == cal.formatMicro(n.instantUTC)
  {
    if cal.parseRFC3339(TrimSpace(raw)).Some? {
      var t := cal.parseRFC3339(TrimSpace(raw)).value;
      MinutesMean(t.offsetSeconds, n.offsetMinutes);
      MinutesMean(cal.offsetAt(TrimSpace(ianaTZ), t.instant), n.offsetMinutes);
      WholeMicros(t.instant, n.instantUTC);
    }
    hide TrimSpace, MinutesOf, TruncDiv, TruncateMicro;
  }

  lemma WholeMicros(t: int, u: int)
    ensures u == TruncateMicro(t) <==> u % 1000 == 0 && u <= t < u + 1000
  {
  }

  lemma OffsetSurvivesTruncation(cal: Calendar, zone: string, t: int)
    requires Sound(cal)
    ensures cal.offsetAt(zone, TruncateMicro(t)) == cal.offsetAt(zone, t)
  {
    var u := TruncateMicro(t);
    var sec := 1_000_000_000;
    assert u - u % sec == t - t % sec by { SameSecond(t); }
    assert cal.offsetAt(zone, u) == cal.offsetAt(zone, u - u % sec);
  }

  lemma SameSecond(t: int)
    ensures var u := TruncateMicro(t); u - u % 1_000_000_000 == t - t % 1_000_000_000
  {
    var q, m := t / 1000, t % 1000;
    assert t == 1000 * q + m && TruncateMicro(t) == 1000 * q;
    var p, r := q / 1_000_000, q % 1_000_000;
    assert t == 1_000_000_000 * p + (1000 * r + m) && 1000 * q == 1_000_000_000 * p + 1000 * r;
  }

  /** What normalisation produces passes the second gate exactly when its UTC year has four digits. */
  lemma NormalizedIsValid(cal: Calendar, raw: string, ianaTZ: string)
    requires Sound(cal) && NormalizeIssued(cal, raw, ianaTZ).Ok?
    ensures var n := NormalizeIssued(cal, raw, ianaTZ).value;
            && !Blank(n.utcString) && !Blank(n.timezone) && OffsetInRange(n.offsetMinutes)
            && (ValidNormalizedContext(cal, n.utcString, n.timezone, n.offsetMinutes) <==> FourDigitYear(n.instantUTC))
  {
    var n := NormalizeIssued(cal, raw, ianaTZ).value;
    var zone := TrimSpace(ianaTZ);
    TrimSpaceTrims(ianaTZ);
    TrimmedStays(n.utcString);
    var t := cal.parseRFC3339(TrimSpace(raw)).value;
    OffsetSurvivesTruncation(cal, zone, t.instant);
    assert n.instantUTC % 1000 == 0;
  }

  /** The second gate reads its strings trimmed: padding them changes nothing it decides. */
  lemma GateIgnoresPadding(cal: Calendar, utcMicro: string, ianaTZ: string, offsetMinutes: int)
    ensures ValidNormalizedContext(cal, utcMicro, ianaTZ, offsetMinutes) <==>
            ValidNormalizedContext(cal, TrimSpace(utcMicro), TrimSpace(ianaTZ), offsetMinutes)
  {
    TrimSpaceTrims(utcMicro);
    TrimSpaceTrims(ianaTZ);
  }

  /** So an accepted issued_at is the canonical text of its instant if and only if it came without padding. */
  lemma AcceptedTextIsCanonical(cal: Calendar, utcMicro: string, ianaTZ: string, offsetMinutes: int)
    requires Sound(cal) && ValidNormalizedContext(cal, utcMicro, ianaTZ, offsetMinutes)
    ensures (exists t :: cal.formatMicro(t) == utcMicro) <==> Trimmed(utcMicro)
  {
    if Trimmed(utcMicro) {
      TrimmedStays(utcMicro);
      var t := TruncateMicro(cal.parseMicro(utcMicro).value);
      assert cal.formatMicro(t) == utcMicro;
    }
  }

  // ----- a year of five digits -----

  /**
   Half past eleven at night, an hour behind UTC, on the last day of 9999: half past midnight, 10000-01-01, in UTC.
   */
  function LateText(): string { "9999-12-31T23:30:00-01:00" }
  function LateZone(): string { "Atlantic/Azores" }
  const LATE_INSTANT: int := 253_402_302_600_000_000_000

  function ReadInt(s: string): int {
    if s != "" && s[0] == '-' && AllDigits(s[1..]) then 0 - NatValue(s[1..])
    else if AllDigits(s) then NatValue(s)
    else 0
  }

  /** A calendar of one known text, which writes instants as plain numbers and keeps every zone an hour behind UTC. */
  function PlainCalendar(): Calendar {
    Calendar((s: string) => if s == LateText() then Some(Zoned(LATE_INSTANT, -3600)) else None,
             (t: int) => FormatInt(t),
             (s: string) => if FourDigitYear(ReadInt(s)) then Some(ReadInt(s)) else None,
             (z: string) => true,
             (z: string, t: int) => -3600)
  }

  lemma ReadsItsOwn(t: int)
    ensures ReadInt(FormatInt(t)) == t && FormatInt(t) != "" && Trimmed(FormatInt(t))
  {
    hide FormatNat, NatValue;
    var n := if t < 0 then -t else t;
    FormatNatValue(n);
    var digits := FormatNat(n);
    assert IsDigit(digits[0]) && IsDigit(digits[|digits| - 1]);
    if t < 0 {
      assert FormatInt(t)[1..] == digits;
      assert FormatInt(t)[|digits|] == digits[|digits| - 1];
    }
  }

  lemma PlainIsSound()
    ensures Sound(PlainCalendar())
  {
    hide FormatInt, ReadInt, Trimmed;
    forall t
      ensures ReadInt(FormatInt(t)) == t && FormatInt(t) != "" && Trimmed(FormatInt(t))
    {
      ReadsItsOwn(t);
    }
  }

  /** An issued_at that normalises, and does not pass the second check: its UTC year is 10000. */
  lemma LateYearFails()
    ensures var cal := PlainCalendar();
            && Sound(cal) && NormalizeIssued(cal, LateText(), LateZone()).Ok?
            && var n := NormalizeIssued(cal, LateText(), LateZone()).value;
            !FourDigitYear(n.instantUTC) && !ValidNormalizedContext(cal, n.utcString, n.timezone, n.offsetMinutes)
  {
    hide TrimSpace, FormatInt, ReadInt, Sound, FourDigitYear, ValidNormalizedContext, LateText, LateZone;
    PlainIsSound();
    LateTexts();
    PastTheLastYear();
    NormalizedIsValid(PlainCalendar(), LateText(), LateZone());
  }

  lemma LateTexts()
    ensures TrimSpace(LateText()) == LateText() != "" && TrimSpace(LateZone()) == LateZone() != ""
  {
    TrimmedStays(LateText());
    TrimmedStays(LateZone());
  }

  lemma PastTheLastYear()
    ensures !FourDigitYear(LATE_INSTANT) && TruncateMicro(LATE_INSTANT) == LATE_INSTANT && TruncDiv(-3600, 60) == -60
  {
  }
}
