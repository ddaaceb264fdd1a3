/** The date shape `\d{4}[./-]\d{2}[./-]\d{2}` that a row cell must match in
    full to be taken as a notice's date (src/main.py:108). There is no
    calendar check: only the characters' classes are looked at. */
module DateShape {
  import opened Decimal

  /** One of the three separators, each position choosing independently. */
  predicate IsSeparator(c: char)
  {
    c == '.' || c == '/' || c == '-'
  }

  /** `re.fullmatch` of the date pattern. */
  predicate DateShaped(t: string)
  {
    && |t| == 10
    && IsDigit(t[0]) && IsDigit(t[1]) && IsDigit(t[2]) && IsDigit(t[3])
    && IsSeparator(t[4])
    && IsDigit(t[5]) && IsDigit(t[6])
    && IsSeparator(t[7])
    && IsDigit(t[8]) && IsDigit(t[9])
  }

  /** The pattern read as its five pieces: year, separator, month, separator, day. */
  function Compose(year: string, sep1: char, month: string, sep2: char, day: string): string
  {
    year + [sep1] + month + [sep2] + day
  }

  /** Every string built from the pattern's pieces has the shape ... */
  lemma ComposeIsShaped(year: string, sep1: char, month: string, sep2: char, day: string)
    requires |year| == 4 && |month| == 2 && |day| == 2
    requires AllDigits(year) && AllDigits(month) && AllDigits(day)
    requires IsSeparator(sep1) && IsSeparator(sep2)
    ensures DateShaped(Compose(year, sep1, month, sep2, day))
  {
    var t := Compose(year, sep1, month, sep2, day);
    assert t[0] == year[0] && t[1] == year[1] && t[2] == year[2] && t[3] == year[3];
    assert t[5] == month[0] && t[6] == month[1];
    assert t[8] == day[0] && t[9] == day[1];
  }

  /** ... and every string of the shape is built that way. */
  lemma ShapedIsComposed(t: string)
    requires DateShaped(t)
    ensures AllDigits(t[0..4]) && AllDigits(t[5..7]) && AllDigits(t[8..10])
    ensures IsSeparator(t[4]) && IsSeparator(t[7])
    ensures t == Compose(t[0..4], t[4], t[5..7], t[7], t[8..10])
  {
  }

  /** The shape is permissive: month 13 and day 99 pass, mixed separators pass. */
  lemma PermissiveExamples()
    ensures DateShaped("2024/05/10")
    ensures DateShaped("2024.13.99")
    ensures DateShaped("2024-05/10")
    ensures !DateShaped("2024/5/10")
    ensures !DateShaped("2024/05/10 ")
  {
  }
}
