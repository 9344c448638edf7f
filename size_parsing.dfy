/** The logger's file-size setting (`"10MB"`): Python's `str.upper`, `str.strip` and
    `int()` on decimal text, and `Logger._parse_size` built from them. */
module SizeParsing {
  import opened Wrappers

  // ---------------------------------------------------------------------------
  // Characters

  predicate IsDigit(c: char) { '0' <= c <= '9' }

  /** The ASCII whitespace `str.strip` and `int()` skip: tab, line feed, vertical tab,
      form feed, carriage return, the four separators 0x1C-0x1F, and space. */
  predicate IsSpace(c: char)
  {
    c == ' ' || '\t' <= c <= '\r' || '\U{001C}' <= c <= '\U{001F}'
  }

  /** `c.upper()` on ASCII letters. */
  function UpperChar(c: char): (r: char)
    ensures IsDigit(c) ==> r == c
    ensures 'A' <= c <= 'Z' ==> r == c
  {
    if 'a' <= c <= 'z' then (c as int - 32) as char else c
  }

  /** `s.upper()`, character by character. */
  function Upper(s: string): (r: string)
    ensures |r| == |s| && forall i :: 0 <= i < |s| ==> r[i] == UpperChar(s[i])
  {
    if |s| == 0 then "" else [UpperChar(s[0])] + Upper(s[1..])
  }

  /** Upper-casing twice changes nothing more. */
  lemma UpperIdempotent(s: string)
    ensures Upper(Upper(s)) == Upper(s)
  {
    var u := Upper(s);
    assert forall i :: 0 <= i < |u| ==> UpperChar(u[i]) == u[i];
  }

  // ---------------------------------------------------------------------------
  // Decimal text

  /** `s.lstrip()`. */
  function TrimStart(s: string): (r: string)
    ensures |r| <= |s|
    ensures |r| > 0 ==> !IsSpace(r[0]) && r[|r| - 1] == s[|s| - 1]
  {
    if |s| > 0 && IsSpace(s[0]) then TrimStart(s[1..]) else s
  }

  /** `s.rstrip()`. */
  function TrimEnd(s: string): (r: string)
    ensures |r| <= |s|
    ensures |r| > 0 ==> !IsSpace(r[|r| - 1]) && r[0] == s[0]
  {
    if |s| > 0 && IsSpace(s[|s| - 1]) then TrimEnd(s[..|s| - 1]) else s
  }

  /** `s.strip()`: a slice of `s` with no whitespace at either end. */
  function Strip(s: string): (r: string)
    ensures |r| <= |s|
    ensures |r| > 0 ==> !IsSpace(r[0]) && !IsSpace(r[|r| - 1])
  {
    var t := TrimStart(s);
    var r := TrimEnd(t);
    assert |r| > 0 ==> r[0] == t[0];
    r
  }

  /** The digits of a literal with `_` separators: a digit first, and after it either
      nothing, more groups, or one underscore followed by more groups. */
  predicate DigitGroups(s: string)
    decreases |s|
  {
    |s| > 0 && IsDigit(s[0]) &&
    (|s| == 1 || if s[1] == '_' then DigitGroups(s[2..]) else DigitGroups(s[1..]))
  }

  /** A literal with separators holds only digits and underscores, and ends in a
      digit. */
  lemma {:induction false} DigitGroupsChars(s: string)
    requires DigitGroups(s)
    ensures forall i :: 0 <= i < |s| ==> IsDigit(s[i]) || s[i] == '_'
    ensures IsDigit(s[|s| - 1])
    decreases |s|
  {
    if |s| > 1 {
      var k := if s[1] == '_' then 2 else 1;
      DigitGroupsChars(s[k..]);
      forall i | k <= i < |s| ensures IsDigit(s[i]) || s[i] == '_' {
        assert s[i] == s[k..][i - k];
      }
      assert s[|s| - 1] == s[k..][|s| - 1 - k];
    }
  }

  /** A non-empty string of digits is a literal without separators. */
  lemma {:induction false} DigitsAreGroups(s: string)
    requires |s| > 0 && forall i :: 0 <= i < |s| ==> IsDigit(s[i])
    ensures DigitGroups(s)
    decreases |s|
  {
    if |s| > 1 {
      assert forall i :: 0 <= i < |s[1..]| ==> s[1..][i] == s[i + 1];
      DigitsAreGroups(s[1..]);
    }
  }

  /** The digits of `s` with the separators dropped. */
  function DropSeparators(s: string): (r: string)
    ensures |r| <= |s| && '_' !in r
    ensures (forall i :: 0 <= i < |s| ==> IsDigit(s[i]) || s[i] == '_') ==>
      forall i :: 0 <= i < |r| ==> IsDigit(r[i])
  {
    if |s| == 0 then ""
    else if s[|s| - 1] == '_' then DropSeparators(s[..|s| - 1])
    else DropSeparators(s[..|s| - 1]) + [s[|s| - 1]]
  }

  /** The value of a string of decimal digits, most significant first. */
  function DigitsValue(s: string): (n: nat)
    requires forall i :: 0 <= i < |s| ==> IsDigit(s[i])
  {
    if |s| == 0 then 0
    else
      assert IsDigit(s[|s| - 1]);
      DigitsValue(s[..|s| - 1]) * 10 + (s[|s| - 1] as int - '0' as int)
  }

  /** The error for text `int()` rejects: the wording of its message, with the text
      itself between single quotes (no `repr` escaping or quote choice, no 200-character
      cut). */
  function InvalidLiteral(s: string): string
  {
    "invalid literal for int() with base 10: '" + s + "'"
  }

  /** `int(s)` for a string: surrounding whitespace is skipped, then an optional sign and
      one or more digits, with single underscores allowed between digits; anything else
      is a `ValueError`. */
  function ParseInt(s: string): (r: Result<int, string>)
    ensures r.Err? ==> r.error == InvalidLiteral(s)
    ensures r.Ok? ==> |Strip(s)| > 0
  {
    var t := Strip(s);
    var body := Unsigned(t);
    if !DigitGroups(body) then Err(InvalidLiteral(s))
    else
      DigitGroupsChars(body);
      var magnitude := DigitsValue(DropSeparators(body));
      if t[0] == '-' then Ok(-(magnitude as int)) else Ok(magnitude)
  }

  /** The text after an optional leading sign. */
  function Unsigned(t: string): (r: string)
    ensures |r| > 0 ==> |t| > 0
  {
    if |t| > 0 && (t[0] == '+' || t[0] == '-') then t[1..] else t
  }

  /** `str(n)` for a natural number. */
  function Show(n: nat): (r: string)
    ensures |r| > 0 && forall i :: 0 <= i < |r| ==> IsDigit(r[i])
  {
    var d := ["0123456789"[n % 10]];
    if n < 10 then d else Show(n / 10) + d
  }

  /** Reading back the digits of a number gives the number. */
  lemma {:induction false} ShowValue(n: nat)
    ensures DigitsValue(Show(n)) == n
    decreases n
  {
    var s := Show(n);
    if n >= 10 {
      ShowValue(n / 10);
      assert s[..|s| - 1] == Show(n / 10);
    }
  }

  /** A string of digits has no separators to drop. */
  lemma {:induction false} DropSeparatorsOfDigits(s: string)
    requires forall i :: 0 <= i < |s| ==> IsDigit(s[i])
    ensures DropSeparators(s) == s
    decreases |s|
  {
    if |s| > 0 {
      DropSeparatorsOfDigits(s[..|s| - 1]);
      assert s[..|s| - 1] + [s[|s| - 1]] == s;
    }
  }

  /** A string without whitespace at its ends is its own strip. */
  lemma StripUnpadded(s: string)
    requires |s| > 0 && !IsSpace(s[0]) && !IsSpace(s[|s| - 1])
    ensures Strip(s) == s
  {
  }

  /** A non-empty digit string reads as its value. */
  lemma ParseIntOfDigits(s: string)
    requires |s| > 0 && forall i :: 0 <= i < |s| ==> IsDigit(s[i])
    ensures ParseInt(s).Ok? && ParseInt(s).value == DigitsValue(s)
  {
    StripDigits(s);
    DigitsAreGroups(s);
    ParseIntSigned(s, s, s);
    DropSeparatorsOfDigits(s);
  }

  /** A digit string is its own strip and has no sign. */
  lemma StripDigits(s: string)
    requires |s| > 0 && forall i :: 0 <= i < |s| ==> IsDigit(s[i])
    ensures Strip(s) == s && Unsigned(s) == s
  {
    assert !IsSpace(s[0]) && !IsSpace(s[|s| - 1]);
    StripUnpadded(s);
  }

  /** `int(s)` once its stripped text `t` is known to be a sign and digit groups. */
  lemma ParseIntSigned(s: string, t: string, body: string)
    requires t == Strip(s) && body == Unsigned(t) && DigitGroups(body)
    ensures forall i :: 0 <= i < |body| ==> IsDigit(body[i]) || body[i] == '_'
    ensures ParseInt(s).Ok?
    ensures t[0] == '-' ==> ParseInt(s).value == -(DigitsValue(DropSeparators(body)) as int)
    ensures t[0] != '-' ==> ParseInt(s).value == DigitsValue(DropSeparators(body))
  {
    DigitGroupsChars(body);
  }

  /** A minus sign before a non-empty digit string negates its value. */
  lemma ParseIntOfNegatedDigits(s: string)
    requires |s| > 0 && forall i :: 0 <= i < |s| ==> IsDigit(s[i])
    ensures ParseInt("-" + s).Ok? && ParseInt("-" + s).value == -(DigitsValue(s) as int)
  {
    StripSigned(s);
    DigitsAreGroups(s);
    ParseIntSigned("-" + s, "-" + s, s);
    DropSeparatorsOfDigits(s);
  }

  /** A minus sign before digits is kept by the strip and removed as the sign. */
  lemma StripSigned(s: string)
    requires |s| > 0 && forall i :: 0 <= i < |s| ==> IsDigit(s[i])
    ensures Strip("-" + s) == "-" + s && Unsigned("-" + s) == s && ("-" + s)[0] == '-'
  {
    var m := "-" + s;
    assert m[0] == '-' && m[|m| - 1] == s[|s| - 1];
    StripUnpadded(m);
    assert m[1..] == s;
  }

  /** `int(str(n)) == n` and `int('-' + str(n)) == -n`. */
  lemma ParseIntShow(n: nat)
    ensures ParseInt(Show(n)).Ok? && ParseInt(Show(n)).value == n
    ensures ParseInt("-" + Show(n)).Ok? && ParseInt("-" + Show(n)).value == -(n as int)
  {
    ShowValue(n);
    ParseIntOfDigits(Show(n));
    ParseIntOfNegatedDigits(Show(n));
  }

  /** Text without any digit is never a number. */
  lemma ParseIntNeedsDigit(s: string)
    requires NoDigit(s)
    ensures ParseInt(s).Err?
  {
    TrimStartNoDigit(s);
    TrimEndNoDigit(TrimStart(s));
    UnsignedNoDigit(Strip(s));
    ParseIntRejects(s);
  }

  /** No character of `s` is a decimal digit. */
  predicate NoDigit(s: string)
  {
    forall i :: 0 <= i < |s| ==> !IsDigit(s[i])
  }

  lemma {:induction false} TrimStartNoDigit(s: string)
    requires NoDigit(s)
    ensures NoDigit(TrimStart(s))
    decreases |s|
  {
    if |s| > 0 && IsSpace(s[0]) {
      assert NoDigit(s[1..]) by {
        forall i | 0 <= i < |s| - 1 ensures !IsDigit(s[1..][i]) {
          assert s[1..][i] == s[i + 1];
        }
      }
      TrimStartNoDigit(s[1..]);
    }
  }

  lemma {:induction false} TrimEndNoDigit(s: string)
    requires NoDigit(s)
    ensures NoDigit(TrimEnd(s))
    decreases |s|
  {
    if |s| > 0 && IsSpace(s[|s| - 1]) {
      var p := s[..|s| - 1];
      assert NoDigit(p) by {
        forall i | 0 <= i < |p| ensures !IsDigit(p[i]) {
          assert p[i] == s[i];
        }
      }
      TrimEndNoDigit(p);
    }
  }

  lemma UnsignedNoDigit(t: string)
    requires NoDigit(t)
    ensures NoDigit(Unsigned(t))
  {
    if |t| > 0 && (t[0] == '+' || t[0] == '-') {
      forall i | 0 <= i < |t| - 1 ensures !IsDigit(t[1..][i]) {
        assert t[1..][i] == t[i + 1];
      }
    }
  }

  /** Text whose unsigned part has no digit is rejected. */
  lemma ParseIntRejects(s: string)
    requires NoDigit(Unsigned(Strip(s)))
    ensures ParseInt(s).Err?
  {
    var body := Unsigned(Strip(s));
    assert !DigitGroups(body) by {
      assert |body| == 0 || !IsDigit(body[0]);
    }
  }

  // ---------------------------------------------------------------------------
  // Sizes

  /** `s.endswith(suffix)`. */
  predicate EndsWith(s: string, suffix: string)
  {
    |suffix| <= |s| && s[|s| - |suffix|..] == suffix
  }

  /** `int(number) * factor`, the error passed on. */
  function Times(r: Result<int, string>, factor: int): (q: Result<int, string>)
    ensures q.Ok? <==> r.Ok?
    ensures q.Ok? ==> q.value == r.value * factor
    ensures q.Err? ==> q == r
  {
    if r.Ok? then Ok(r.value * factor) else r
  }

  const KiB: int := 1024
  const MiB: int := 1024 * 1024
  const GiB: int := 1024 * 1024 * 1024

  /** The unit suffix of an upper-cased size: the text of the number before it and the
      factor it stands for; without a suffix, the whole text counts single bytes. */
  function SplitUnit(s: string): (u: (string, int))
    ensures EndsWith(s, "KB") ==> u == (s[..|s| - 2], KiB)
    ensures !EndsWith(s, "KB") && EndsWith(s, "MB") ==> u == (s[..|s| - 2], MiB)
    ensures !EndsWith(s, "KB") && !EndsWith(s, "MB") && EndsWith(s, "GB") ==> u == (s[..|s| - 2], GiB)
    ensures !EndsWith(s, "KB") && !EndsWith(s, "MB") && !EndsWith(s, "GB") ==> u == (s, 1)
  {
    if EndsWith(s, "KB") then (s[..|s| - 2], KiB)
    else if EndsWith(s, "MB") then (s[..|s| - 2], MiB)
    else if EndsWith(s, "GB") then (s[..|s| - 2], GiB)
    else (s, 1)
  }

  /** `Logger._parse_size`: upper-case the text; a `KB`, `MB` or `GB` suffix multiplies
      the number before it by 1024, 1024² or 1024³; anything else is read as a plain
      byte count. */
  function ParseSize(sizeStr: string): (r: Result<int, string>)
    ensures var u := SplitUnit(Upper(sizeStr)); r.Ok? <==> ParseInt(u.0).Ok?
    ensures var u := SplitUnit(Upper(sizeStr)); r.Ok? ==> r.value == ParseInt(u.0).value * u.1
    ensures var u := SplitUnit(Upper(sizeStr)); r.Err? ==> r == ParseInt(u.0)
  {
    var u := SplitUnit(Upper(sizeStr));
    if u.1 == 1 then ParseInt(u.0) else Times(ParseInt(u.0), u.1)
  }

  /** The letter case of the text does not matter. */
  lemma ParseSizeIgnoresCase(s: string)
    ensures ParseSize(Upper(s)) == ParseSize(s)
  {
    UpperIdempotent(s);
  }

  /** Digits followed by a unit upper-case to the digits followed by the upper-cased
      unit. */
  lemma UpperAfterDigits(d: string, unit: string)
    requires forall i :: 0 <= i < |d| ==> IsDigit(d[i])
    ensures Upper(d + unit) == d + Upper(unit)
  {
  }

  /** Digits followed by an upper-case unit: the digits' value times the unit. */
  lemma ParseSizeWithUnit(d: string, unit: string, factor: int)
    requires |d| > 0 && forall i :: 0 <= i < |d| ==> IsDigit(d[i])
    requires (unit == "KB" && factor == KiB) || (unit == "MB" && factor == MiB) || (unit == "GB" && factor == GiB)
    ensures ParseSize(d + unit).Ok? && ParseSize(d + unit).value == DigitsValue(d) * factor
  {
    UnitSuffix(d, unit);
    ParseSizeSuffix(d + unit, d, unit, factor);
    ParseIntOfDigits(d);
  }

  /** Digits followed by an upper-case unit keep their case and end in exactly that
      unit. */
  lemma UnitSuffix(d: string, unit: string)
    requires forall i :: 0 <= i < |d| ==> IsDigit(d[i])
    requires unit in {"KB", "MB", "GB"}
    ensures var s := d + unit; Upper(s) == s && s[..|s| - 2] == d && EndsWith(s, unit)
    ensures var s := d + unit; unit != "KB" ==> !EndsWith(s, "KB")
    ensures var s := d + unit; unit == "GB" ==> !EndsWith(s, "MB")
  {
    var s := d + unit;
    UpperAfterDigits(d, unit);
    assert Upper(unit) == unit;
    assert s[..|s| - 2] == d;
    assert s[|s| - 2..] == unit;
  }

  /** With its case already upper, the reading of a text ending in a unit. */
  lemma ParseSizeSuffix(s: string, d: string, unit: string, factor: int)
    requires Upper(s) == s && |s| >= 2 && s[..|s| - 2] == d && EndsWith(s, unit)
    requires (unit == "KB" && factor == KiB) || (unit == "MB" && factor == MiB) || (unit == "GB" && factor == GiB)
    requires unit != "KB" ==> !EndsWith(s, "KB")
    requires unit == "GB" ==> !EndsWith(s, "MB")
    ensures SplitUnit(Upper(s)) == (d, factor)
  {
  }

  /** The units in lower case. */
  lemma UpperUnits()
    ensures Upper("kb") == "KB" && Upper("mb") == "MB" && Upper("gb") == "GB"
  {
  }

  /** Digits followed by a lower-case unit read like the upper-case unit. */
  lemma ParseSizeLowerUnit(d: string, unit: string)
    requires forall i :: 0 <= i < |d| ==> IsDigit(d[i])
    requires unit in {"kb", "mb", "gb"}
    ensures ParseSize(d + unit) == ParseSize(d + Upper(unit))
  {
    UpperAfterDigits(d, unit);
    ParseSizeIgnoresCase(d + unit);
    UpperAfterDigits(d, Upper(unit));
    UpperIdempotent(unit);
  }

  /** A digit string with no unit reads as a plain byte count. */
  lemma ParseSizePlain(d: string)
    requires |d| > 0 && forall i :: 0 <= i < |d| ==> IsDigit(d[i])
    ensures ParseSize(d).Ok? && ParseSize(d).value == DigitsValue(d)
  {
    UpperAfterDigits(d, "");
    assert d + "" == d;
    assert !EndsWith(d, "KB") && !EndsWith(d, "MB") && !EndsWith(d, "GB") by {
      assert IsDigit(d[|d| - 1]);
    }
    ParseIntOfDigits(d);
  }

  /** `str(n)` followed by a unit, in either case, reads back as `n` times the unit, and
      `str(n)` alone as `n` bytes. */
  lemma ParseSizeShow(n: nat)
    ensures ParseSize(Show(n) + "KB").Ok? && ParseSize(Show(n) + "KB").value == n * KiB
    ensures ParseSize(Show(n) + "MB").Ok? && ParseSize(Show(n) + "MB").value == n * MiB
    ensures ParseSize(Show(n) + "GB").Ok? && ParseSize(Show(n) + "GB").value == n * GiB
    ensures ParseSize(Show(n) + "kb") == ParseSize(Show(n) + "KB")
    ensures ParseSize(Show(n) + "mb") == ParseSize(Show(n) + "MB")
    ensures ParseSize(Show(n) + "gb") == ParseSize(Show(n) + "GB")
    ensures ParseSize(Show(n)).Ok? && ParseSize(Show(n)).value == n
  {
    var d := Show(n);
    ShowValue(n);
    ParseSizeWithUnit(d, "KB", KiB);
    ParseSizeWithUnit(d, "MB", MiB);
    ParseSizeWithUnit(d, "GB", GiB);
    UpperUnits();
    ParseSizeLowerUnit(d, "kb");
    ParseSizeLowerUnit(d, "mb");
    ParseSizeLowerUnit(d, "gb");
    ParseSizePlain(d);
  }

  /** The shipped default `"10MB"` is ten mebibytes. */
  lemma DefaultMaxFileSize()
    ensures ParseSize("10MB").Ok? && ParseSize("10MB").value == 10485760
  {
    Ten();
    ParseSizeWithUnit("10", "MB", MiB);
    assert "10" + "MB" == "10MB";
  }

  /** The digits `"10"` are worth ten. */
  lemma Ten()
    ensures (forall i :: 0 <= i < |"10"| ==> IsDigit("10"[i])) && DigitsValue("10") == 10
  {
    assert "10"[..1] == "1";
  }

  /** A unit without a number is a `ValueError`. */
  lemma UnitAloneFails()
    ensures ParseSize("KB").Err? && ParseSize("mb").Err? && ParseSize("").Err?
  {
    assert Upper("KB") == "KB" && Upper("mb") == "MB";
    assert "KB"[..0] == "" && "MB"[..0] == "";
    assert NoDigit("");
    ParseIntNeedsDigit("");
  }
}
