/** Python's `str(datetime.timedelta(...))` for a non-negative duration, which
    the caption writer uses for both ends of a segment. Durations are whole
    microseconds, the resolution a `timedelta` keeps. */
module Timestamp {
  import opened Wrappers
  import opened Text
  import opened Decimal

  /** `"%d day%s, " % plural(days)`, present only when `days` is not zero. */
  function DayPrefix(days: nat): (r: string)
  {
    if days == 0 then ""
    else NatToString(days) + (if days == 1 then " day, " else " days, ")
  }

  /** The fields of a duration, as `timedelta` normalises it: whole days,
      then the seconds of the last day split into hours, minutes and
      seconds, then the microseconds. */
  function Days(t: nat): (r: nat) { t / 1000000 / 86400 }
  function Hours(t: nat): (h: nat) { t / 1000000 % 86400 / 60 / 60 }
  function Minutes(t: nat): (m: nat) ensures m < 60 { t / 1000000 % 86400 / 60 % 60 }
  function Seconds(t: nat): (s: nat) ensures s < 60 { t / 1000000 % 86400 % 60 }
  function Micros(t: nat): (us: nat) ensures us < 1000000 { t % 1000000 }

  /** `".%06d" % us`, present only when `us` is not zero. */
  function Fraction(us: nat): (r: string)
    requires us < 1000000
  {
    if us == 0 then "" else "." + Padded(us, 6)
  }

  /** `str(timedelta(microseconds = t))`: `H:MM:SS` with the hours of the
      day unpadded and minutes and seconds on two digits, then `.ffffff` when
      the microseconds are not zero, behind `N day(s), ` from 24 hours on. */
  function Format(t: nat): (r: string)
  {
    DayPrefix(Days(t)) + NatToString(Hours(t)) + ":" + Padded(Minutes(t), 2) + ":"
      + Padded(Seconds(t), 2) + Fraction(Micros(t))
  }

  /** The hours field, possibly behind a day count: `H` or `N day(s), H`. */
  function ParseDaysHours(field: string): (r: Option<(nat, nat)>)
  {
    var words := Split(field, ' ');
    if |words| == 1 then
      var h :- ParseNat(words[0]);
      Some((0, h))
    else if |words| == 3 && (words[1] == "day," || words[1] == "days,") then
      var d :- ParseNat(words[0]);
      var h :- ParseNat(words[2]);
      Some((d, h))
    else None
  }

  /** A two-digit field below 60. */
  function ParseSixty(field: string): (r: Option<nat>)
  {
    if |field| != 2 then None
    else
      var n :- ParseNat(field);
      if n < 60 then Some(n) else None
  }

  /** The seconds field: `SS` or `SS.ffffff`. */
  function ParseSeconds(field: string): (r: Option<(nat, nat)>)
  {
    var parts := Split(field, '.');
    var ss :- ParseSixty(parts[0]);
    if |parts| == 1 then Some((ss, 0))
    else if |parts| == 2 && |parts[1]| == 6 then
      var us :- ParseNat(parts[1]);
      Some((ss, us))
    else None
  }

  /** The duration of so many days, hours, minutes, seconds and microseconds. */
  function Compose(d: nat, h: nat, m: nat, s: nat, us: nat): (r: nat)
  {
    (d * 86400 + h * 3600 + m * 60 + s) * 1000000 + us
  }

  /** Reads a timestamp written by Format back into microseconds. */
  function Parse(s: string): (r: Option<nat>)
  {
    var fields := Split(s, ':');
    if |fields| != 3 then None
    else
      var dh :- ParseDaysHours(fields[0]);
      var mm :- ParseSixty(fields[1]);
      var su :- ParseSeconds(fields[2]);
      Some(Compose(dh.0, dh.1, mm, su.0, su.1))
  }

  /** The fields put back together give the duration. */
  lemma Decompose(t: nat)
    ensures t == Compose(Days(t), Hours(t), Minutes(t), Seconds(t), Micros(t))
  {
    var seconds := t / 1000000;
    var daySeconds := seconds % 86400;
    var minutes := daySeconds / 60;
    assert t == seconds * 1000000 + t % 1000000;
    assert seconds == seconds / 86400 * 86400 + daySeconds;
    assert daySeconds == minutes * 60 + daySeconds % 60;
    assert minutes == minutes / 60 * 60 + minutes % 60;
  }

  /** Digit strings hold none of the characters the parsers split on. */
  lemma DigitsHaveNoSeparator(s: string)
    requires AllDigits(s)
    ensures ':' !in s && ' ' !in s && '.' !in s && '>' !in s && '\n' !in s
  {
  }

  /** Every timestamp reads back as the duration it was written from. */
  lemma ParseFormat(t: nat)
    ensures Parse(Format(t)) == Some(t)
  {
    FormatParsesToFields(t);
    Decompose(t);
  }

  lemma FormatParsesToFields(t: nat)
    ensures Parse(Format(t)) == Some(Compose(Days(t), Hours(t), Minutes(t), Seconds(t), Micros(t)))
  {
    var head := DayPrefix(Days(t)) + NatToString(Hours(t));
    var mmText := Padded(Minutes(t), 2);
    var tail := Padded(Seconds(t), 2) + Fraction(Micros(t));
    HeadParses(Days(t), Hours(t));
    SecondsParse(Seconds(t), Micros(t));
    MinutesParse(Minutes(t));
    ParseFields(head, mmText, tail, Days(t), Hours(t), Minutes(t), Seconds(t), Micros(t));
    FormatFields(t);
  }

  lemma ParseFields(head: string, mmText: string, tail: string,
                    d: nat, h: nat, m: nat, s: nat, us: nat)
    requires ':' !in head && ':' !in mmText && ':' !in tail
    requires ParseDaysHours(head) == Some((d, h))
    requires ParseSixty(mmText) == Some(m)
    requires ParseSeconds(tail) == Some((s, us))
    ensures Parse(Join([head, mmText, tail], ':')) == Some(Compose(d, h, m, s, us))
  {
    SplitJoin([head, mmText, tail], ':');
  }

  /** Format puts its three colon-separated fields together. */
  lemma FormatFields(t: nat)
    ensures Format(t) == Join([DayPrefix(Days(t)) + NatToString(Hours(t)), Padded(Minutes(t), 2),
                               Padded(Seconds(t), 2) + Fraction(Micros(t))], ':')
  {
    JoinThree(DayPrefix(Days(t)) + NatToString(Hours(t)), Padded(Minutes(t), 2),
              Padded(Seconds(t), 2) + Fraction(Micros(t)), ':');
  }

  lemma MinutesParse(mm: nat)
    requires mm < 60
    ensures ':' !in Padded(mm, 2)
    ensures ParseSixty(Padded(mm, 2)) == Some(mm)
  {
    DigitsHaveNoSeparator(Padded(mm, 2));
    ParsePadded(mm, 2);
  }

  /** The hours field, behind its day count when there is one, reads back. */
  lemma HeadParses(days: nat, hh: nat)
    ensures ':' !in DayPrefix(days) + NatToString(hh)
    ensures ParseDaysHours(DayPrefix(days) + NatToString(hh)) == Some((days, hh))
  {
    var hText := NatToString(hh);
    ParseNatToString(hh);
    DigitsHaveNoSeparator(hText);
    if days == 0 {
      assert DayPrefix(days) + hText == hText;
      SplitNoSeparator(hText, ' ');
    } else {
      var dText := NatToString(days);
      var word := if days == 1 then "day," else "days,";
      DigitsHaveNoSeparator(dText);
      ParseNatToString(days);
      DayPrefixWords(days, hh);
      DayWordsSplit(dText, word, hText);
      DayWordsParse(dText, word, hText, days, hh);
    }
  }

  lemma DayPrefixWords(days: nat, hh: nat)
    requires days > 0
    ensures DayPrefix(days) + NatToString(hh)
            == Join([NatToString(days), if days == 1 then "day," else "days,", NatToString(hh)], ' ')
  {
    var word := if days == 1 then "day," else "days,";
    assert DayPrefix(days) == NatToString(days) + [' '] + word + [' '];
    JoinThree(NatToString(days), word, NatToString(hh), ' ');
  }

  lemma DayWordsSplit(dText: string, word: string, hText: string)
    requires word == "day," || word == "days,"
    requires ' ' !in dText && ' ' !in hText
    ensures Split(Join([dText, word, hText], ' '), ' ') == [dText, word, hText]
  {
    SplitJoin([dText, word, hText], ' ');
  }

  lemma DayWordsParse(dText: string, word: string, hText: string, d: nat, h: nat)
    requires word == "day," || word == "days,"
    requires Split(Join([dText, word, hText], ' '), ' ') == [dText, word, hText]
    requires ParseNat(dText) == Some(d) && ParseNat(hText) == Some(h)
    ensures ParseDaysHours(Join([dText, word, hText], ' ')) == Some((d, h))
  {
  }

  /** The seconds field with its fraction reads back. */
  lemma SecondsParse(ss: nat, us: nat)
    requires ss < 60 && us < 1000000
    ensures ':' !in Padded(ss, 2) + Fraction(us)
    ensures ParseSeconds(Padded(ss, 2) + Fraction(us)) == Some((ss, us))
  {
    var sText := Padded(ss, 2);
    ParsePadded(ss, 2);
    DigitsHaveNoSeparator(sText);
    assert ParseSixty(sText) == Some(ss);
    if us == 0 {
      assert sText + Fraction(us) == sText;
      SplitNoSeparator(sText, '.');
    } else {
      var uText := Padded(us, 6);
      DigitsHaveNoSeparator(uText);
      ParsePadded(us, 6);
      JoinTwo(sText, uText, '.');
      assert sText + Fraction(us) == Join([sText, uText], '.');
      SplitJoin([sText, uText], '.');
    }
  }

  /** Below one day there is no day count: the text is three colon-separated
      fields, hours in plain digits below 24, minutes on two digits, and
      seconds on two digits followed by a dot and six digits exactly when the
      microseconds are not zero. */
  lemma FormatUnderADay(t: nat)
    requires t < 86400000000
    ensures var fields := Split(Format(t), ':');
            && |fields| == 3
            && fields[0] == NatToString(Hours(t)) && Hours(t) < 24
            && |fields[1]| == 2 && AllDigits(fields[1])
            && (Micros(t) == 0 ==> |fields[2]| == 2 && AllDigits(fields[2]))
            && (Micros(t) != 0 ==> |fields[2]| == 9 && fields[2][2] == '.'
                                   && AllDigits(fields[2][..2]) && AllDigits(fields[2][3..]))
  {
    var head := DayPrefix(Days(t)) + NatToString(Hours(t));
    var tail := Padded(Seconds(t), 2) + Fraction(Micros(t));
    assert Days(t) == 0;
    assert head == NatToString(Hours(t));
    HeadParses(Days(t), Hours(t));
    SecondsParse(Seconds(t), Micros(t));
    MinutesParse(Minutes(t));
    FormatFields(t);
    SplitJoin([head, Padded(Minutes(t), 2), tail], ':');
    if Micros(t) != 0 {
      assert tail[..2] == Padded(Seconds(t), 2);
      assert tail[3..] == Padded(Micros(t), 6);
    } else {
      assert tail == Padded(Seconds(t), 2);
    }
  }

  /** Distinct durations are written differently. */
  lemma FormatInjective(t: nat, u: nat)
    requires Format(t) == Format(u)
    ensures t == u
  {
    ParseFormat(t);
    ParseFormat(u);
  }
}
