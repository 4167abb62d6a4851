/**
 * The file name `PlaPicture.TakePhoto` gives a capture: `Ss`, the local time
 * formatted `yyyyMMddHHmmss`, and `.png`, saved under `Assets/Screenshots/`.
 */
module Screenshots {
  import opened Common
  import opened Text

  /** `PlaPicture.FolderPath`. */
  const FolderPath: string := "Assets/Screenshots/"

  const NamePrefix: string := "Ss"
  const NameSuffix: string := ".png"

  /** The fields of `DateTime.Now` that the format prints. */
  datatype DateTime = DateTime(year: nat, month: nat, day: nat, hour: nat, minute: nat, second: nat)

  /** The field ranges of a .NET `DateTime`. */
  predicate ValidTime(t: DateTime)
  {
    && 1 <= t.year <= 9999 && 1 <= t.month <= 12 && 1 <= t.day <= 31
    && t.hour < 24 && t.minute < 60 && t.second < 60
  }

  /** `$"Ss{now:yyyyMMddHHmmss}.png"`. */
  function ScreenshotName(t: DateTime): (r: string)
    requires ValidTime(t)
    ensures |r| == 20 && r[..2] == NamePrefix && r[16..] == NameSuffix && AllDigits(r[2..16])
  {
    NamePrefix + PadDigits(t.year, 4) + PadDigits(t.month, 2) + PadDigits(t.day, 2)
      + PadDigits(t.hour, 2) + PadDigits(t.minute, 2) + PadDigits(t.second, 2) + NameSuffix
  }

  /** Reads a capture's time back from its file name. */
  function ParseScreenshotName(s: string): Option<DateTime>
  {
    if && |s| == 20 && s[..2] == NamePrefix && s[16..] == NameSuffix
       && AllDigits(s[2..6]) && AllDigits(s[6..8]) && AllDigits(s[8..10])
       && AllDigits(s[10..12]) && AllDigits(s[12..14]) && AllDigits(s[14..16])
    then
      var t := DateTime(DigitsValue(s[2..6]), DigitsValue(s[6..8]), DigitsValue(s[8..10]),
                        DigitsValue(s[10..12]), DigitsValue(s[12..14]), DigitsValue(s[14..16]));
      if ValidTime(t) then Some(t) else None
    else None
  }

  /** The fixed-width fields of a file name, in order. */
  lemma NameFields(t: DateTime)
    requires ValidTime(t)
    ensures var s := ScreenshotName(t);
      && s[2..6] == PadDigits(t.year, 4) && s[6..8] == PadDigits(t.month, 2)
      && s[8..10] == PadDigits(t.day, 2) && s[10..12] == PadDigits(t.hour, 2)
      && s[12..14] == PadDigits(t.minute, 2) && s[14..16] == PadDigits(t.second, 2)
  {
    var s := ScreenshotName(t);
    var y, mo, d := PadDigits(t.year, 4), PadDigits(t.month, 2), PadDigits(t.day, 2);
    var h, mi, se := PadDigits(t.hour, 2), PadDigits(t.minute, 2), PadDigits(t.second, 2);
    assert s == NamePrefix + y + mo + d + h + mi + se + NameSuffix;
    assert s[2..6] == y;
    assert s[6..8] == mo;
    assert s[8..10] == d;
    assert s[10..12] == h;
    assert s[12..14] == mi;
    assert s[14..16] == se;
  }

  /** The file name determines the time it was taken at, to the second. */
  lemma ParseScreenshotNameRoundTrip(t: DateTime)
    requires ValidTime(t)
    ensures ParseScreenshotName(ScreenshotName(t)) == Some(t)
  {
    NameFields(t);
  }

  /** Every name that parses is the name of the time it parses to. */
  lemma ScreenshotNameOfParse(s: string)
    requires ParseScreenshotName(s).Some?
    ensures ValidTime(ParseScreenshotName(s).value)
    ensures ScreenshotName(ParseScreenshotName(s).value) == s
  {
    var t := ParseScreenshotName(s).value;
    var y, mo, d, h, mi, se := s[2..6], s[6..8], s[8..10], s[10..12], s[12..14], s[14..16];
    PadDigitsValue(y);
    PadDigitsValue(mo);
    PadDigitsValue(d);
    PadDigitsValue(h);
    PadDigitsValue(mi);
    PadDigitsValue(se);
    assert ScreenshotName(t) == s[..2] + y + mo + d + h + mi + se + s[16..];
    assert s[..2] + y == s[..6];
    assert s[..6] + mo == s[..8];
    assert s[..8] + d == s[..10];
    assert s[..10] + h == s[..12];
    assert s[..12] + mi == s[..14];
    assert s[..14] + se == s[..16];
    assert s[..16] + s[16..] == s;
  }

  /** Two captures taken in the same second get the same name, and only those. */
  lemma ScreenshotNameInjective(t1: DateTime, t2: DateTime)
    requires ValidTime(t1) && ValidTime(t2)
    ensures ScreenshotName(t1) == ScreenshotName(t2) <==> t1 == t2
  {
    ParseScreenshotNameRoundTrip(t1);
    ParseScreenshotNameRoundTrip(t2);
  }

  /** `Path.Combine(FolderPath, name)`: the folder already ends in a separator, so none is added. */
  function SavePath(name: string): string
  {
    FolderPath + name
  }
}
