/**
 * `parse_time` and the time-column choice of `run_test` in
 * input/models/BiomassBoiler/test_data/test_script.py. Python's `float()` is not modelled:
 * every function here takes the number parser as a parameter, a partial function from a
 * string to a real.
 */
module TimeParse {
  import opened Wrappers

  /** The characters Python's `str.strip()` removes (those for which `str.isspace()` holds). */
  predicate IsSpace(c: char) {
    || c == ' '
    || '\t' <= c <= '\r'
    || '\U{1C}' <= c <= '\U{1F}'
    || c == '\U{85}' || c == '\U{A0}' || c == '\U{1680}'
    || '\U{2000}' <= c <= '\U{200A}'
    || c == '\U{2028}' || c == '\U{2029}' || c == '\U{202F}' || c == '\U{205F}' || c == '\U{3000}'
  }

  /** `str.lower()` on one character, for the ASCII letters. */
  function LowerChar(c: char): char {
    if 'A' <= c <= 'Z' then (c as int + 32) as char else c
  }

  /** `s` without its leading whitespace. */
  function TrimStart(s: string): (r: string)
    ensures |r| <= |s| && r == s[|s| - |r|..]
    ensures forall i :: 0 <= i < |s| - |r| ==> IsSpace(s[i])
    ensures r == [] || !IsSpace(r[0])
    decreases |s|
  {
    if |s| > 0 && IsSpace(s[0]) then TrimStart(s[1..]) else s
  }

  /** `s` without its trailing whitespace. */
  function TrimEnd(s: string): (r: string)
    ensures |r| <= |s| && r == s[..|r|]
    ensures forall i :: |r| <= i < |s| ==> IsSpace(s[i])
    ensures r == [] || !IsSpace(r[|r| - 1])
    decreases |s|
  {
    if |s| > 0 && IsSpace(s[|s| - 1]) then TrimEnd(s[..|s| - 1]) else s
  }

  /** `str.strip()`. */
  function Strip(s: string): string {
    TrimEnd(TrimStart(s))
  }

  /** `str.lower()`. */
  function Lower(s: string): string {
    seq(|s|, i requires 0 <= i < |s| => LowerChar(s[i]))
  }

  /** `val.strip().lower()`, the first step of `parse_time`. */
  function Normalize(s: string): string {
    Lower(Strip(s))
  }

  /** `float(x) * factor`, or 0.0 when `float` raises ValueError. */
  function Scaled(number: Option<real>, factor: real): real {
    match number
    case Some(x) => x * factor
    case None => 0.0
  }

  /** `float(x)`, or 0.0 when it raises ValueError. */
  function OrZero(number: Option<real>): real {
    number.GetOr(0.0)
  }

  /**
   * `parse_time`: a trailing `h` counts hours, `m` minutes, `s` seconds, tested in that
   * order on the stripped, lower-cased text; anything else is read as a plain number. A
   * text the number parser rejects gives 0.0.
   */
  function ParseTime(val: string, parse: string -> Option<real>): real {
    var v := Normalize(val);
    if |v| > 0 && v[|v| - 1] == 'h' then Scaled(parse(v[..|v| - 1]), 3600.0)
    else if |v| > 0 && v[|v| - 1] == 'm' then Scaled(parse(v[..|v| - 1]), 60.0)
    else if |v| > 0 && v[|v| - 1] == 's' then OrZero(parse(v[..|v| - 1]))
    else OrZero(parse(v))
  }

  /** Seconds per unit, for the three unit letters. */
  function UnitSeconds(unit: char): real
    requires unit in "hms"
  {
    if unit == 'h' then 3600.0 else if unit == 'm' then 60.0 else 1.0
  }

  /**
   * What CPython's `float()` does and the fallback relies on: it rejects the empty string
   * and every string containing `h`, `m` or `s` (the only letters it accepts are those of
   * exponents, `inf`, `infinity` and `nan`).
   */
  ghost predicate FloatLike(parse: string -> Option<real>) {
    && parse("") == None
    && forall t :: ('h' in t || 'm' in t || 's' in t) ==> parse(t) == None
  }

  // ---------------------------------------------------------------------------
  // Normalisation

  lemma LowerKeepsSpaces(c: char)
    ensures IsSpace(LowerChar(c)) <==> IsSpace(c)
  {
  }

  /** The normalised text has no whitespace at either end and no ASCII capital left. */
  lemma NormalizeShape(s: string)
    ensures var r := Normalize(s);
      && |r| <= |s|
      && (r == [] || (!IsSpace(r[0]) && !IsSpace(r[|r| - 1])))
      && forall i :: 0 <= i < |r| ==> !('A' <= r[i] <= 'Z')
  {
    var t := Strip(s);
    if t != [] {
      LowerKeepsSpaces(t[0]);
      LowerKeepsSpaces(t[|t| - 1]);
    }
  }

  lemma {:induction false} TrimStartPadded(pad: string, t: string)
    requires forall i :: 0 <= i < |pad| ==> IsSpace(pad[i])
    requires t != [] && !IsSpace(t[0])
    ensures TrimStart(pad + t) == t
    decreases |pad|
  {
    if pad == [] {
      assert pad + t == t;
    } else {
      assert (pad + t)[1..] == pad[1..] + t;
      TrimStartPadded(pad[1..], t);
    }
  }

  lemma {:induction false} TrimEndPadded(t: string, pad: string)
    requires forall i :: 0 <= i < |pad| ==> IsSpace(pad[i])
    requires t != [] && !IsSpace(t[|t| - 1])
    ensures TrimEnd(t + pad) == t
    decreases |pad|
  {
    if pad == [] {
      assert t + pad == t;
    } else {
      assert (t + pad)[..|t + pad| - 1] == t + pad[..|pad| - 1];
      TrimEndPadded(t, pad[..|pad| - 1]);
    }
  }

  /** Stripping removes exactly the whitespace around a text that starts and ends with none. */
  lemma StripPadded(pad1: string, t: string, pad2: string)
    requires forall i :: 0 <= i < |pad1| ==> IsSpace(pad1[i])
    requires forall i :: 0 <= i < |pad2| ==> IsSpace(pad2[i])
    requires t != [] && !IsSpace(t[0]) && !IsSpace(t[|t| - 1])
    ensures Strip(pad1 + t + pad2) == t
  {
    assert pad1 + t + pad2 == pad1 + (t + pad2);
    TrimStartPadded(pad1, t + pad2);
    TrimEndPadded(t, pad2);
  }

  /** Normalising twice is normalising once, so " 2H " and "2h" are read alike. */
  lemma NormalizeIdempotent(s: string)
    ensures Normalize(Normalize(s)) == Normalize(s)
  {
    var t := Strip(s);
    var v := Lower(t);
    if v != [] {
      LowerKeepsSpaces(t[0]);
      LowerKeepsSpaces(t[|t| - 1]);
      StripPadded([], v, []);
      assert [] + v + [] == v;
    }
    assert Lower(v) == v;
  }

  /** `parse_time` reads a text and its stripped, lower-cased form alike. */
  lemma ParseTimeIgnoresCaseAndPadding(s: string, parse: string -> Option<real>)
    ensures ParseTime(Normalize(s), parse) == ParseTime(s, parse)
  {
    NormalizeIdempotent(s);
  }

  // ---------------------------------------------------------------------------
  // Unit suffixes and the fallback

  /**
   * A number followed by one unit letter, in either case and with any whitespace around
   * it, is that many hours, minutes or seconds in seconds; 0.0 if the number is rejected.
   */
  lemma UnitSuffixScales(pad1: string, number: string, unit: char, pad2: string, parse: string -> Option<real>)
    requires forall i :: 0 <= i < |pad1| ==> IsSpace(pad1[i])
    requires forall i :: 0 <= i < |pad2| ==> IsSpace(pad2[i])
    requires number == [] || !IsSpace(number[0])
    requires Lower(number) == number
    requires LowerChar(unit) in "hms"
    ensures ParseTime(pad1 + number + [unit] + pad2, parse) ==
      match parse(number)
      case Some(x) => x * UnitSeconds(LowerChar(unit))
      case None => 0.0
  {
    var c := LowerChar(unit);
    var v := number + [c];
    assert !IsSpace(unit) by {
      assert c == 'h' || c == 'm' || c == 's';
    }
    var text := pad1 + number + [unit] + pad2;
    NormalizeUnit(pad1, number, unit, pad2);
    assert Normalize(text) == v;
    assert v[|v| - 1] == c && v[..|v| - 1] == number;
    if c == 'h' {
      assert ParseTime(text, parse) == Scaled(parse(number), 3600.0);
    } else if c == 'm' {
      assert ParseTime(text, parse) == Scaled(parse(number), 60.0);
    } else {
      assert ParseTime(text, parse) == OrZero(parse(number));
    }
  }

  lemma NormalizeUnit(pad1: string, number: string, unit: char, pad2: string)
    requires forall i :: 0 <= i < |pad1| ==> IsSpace(pad1[i])
    requires forall i :: 0 <= i < |pad2| ==> IsSpace(pad2[i])
    requires number == [] || !IsSpace(number[0])
    requires Lower(number) == number
    requires !IsSpace(unit)
    ensures Normalize(pad1 + number + [unit] + pad2) == number + [LowerChar(unit)]
  {
    var t := number + [unit];
    assert pad1 + number + [unit] + pad2 == pad1 + t + pad2;
    assert t[|t| - 1] == unit;
    assert t[0] == if number == [] then unit else number[0];
    StripPadded(pad1, t, pad2);
    var v := Lower(t);
    assert |v| == |number| + 1;
    assert forall i :: 0 <= i < |number| ==> v[i] == LowerChar(number[i]) == Lower(number)[i];
    assert v == number + [LowerChar(unit)];
  }

  /** Text that does not end in a unit letter is read as a plain number. */
  lemma PlainNumber(pad1: string, number: string, pad2: string, parse: string -> Option<real>)
    requires forall i :: 0 <= i < |pad1| ==> IsSpace(pad1[i])
    requires forall i :: 0 <= i < |pad2| ==> IsSpace(pad2[i])
    requires number != [] && !IsSpace(number[0]) && !IsSpace(number[|number| - 1])
    requires Lower(number) == number
    requires number[|number| - 1] !in "hms"
    ensures ParseTime(pad1 + number + pad2, parse) == OrZero(parse(number))
  {
    StripPadded(pad1, number, pad2);
  }

  /**
   * With a parser that behaves like `float()`, blank text and text whose last two
   * characters are unit letters (only one suffix is stripped, so "5ms" leaves "5m") give 0.0.
   */
  lemma FallbackToZero(s: string, parse: string -> Option<real>)
    requires FloatLike(parse)
    ensures Normalize(s) == [] ==> ParseTime(s, parse) == 0.0
    ensures var v := Normalize(s);
      |v| >= 2 && v[|v| - 1] in "hms" && v[|v| - 2] in "hms" ==> ParseTime(s, parse) == 0.0
  {
    var v := Normalize(s);
    if |v| >= 2 && v[|v| - 1] in "hms" && v[|v| - 2] in "hms" {
      var body := v[..|v| - 1];
      assert body[|body| - 1] == v[|v| - 2];
      assert body[|body| - 1] in body;
      assert parse(body) == None;
    }
  }

  // ---------------------------------------------------------------------------
  // The time column of the validation table

  /**
   * The column `run_test` reads the time from: 'timestamp' unless the header has 'time',
   * and 'Time' over both.
   */
  function TimeColumn(fieldnames: seq<string>): (col: string)
    ensures col == "Time" <==> "Time" in fieldnames
    ensures col == "time" <==> "Time" !in fieldnames && "time" in fieldnames
    ensures col == "timestamp" <==> "Time" !in fieldnames && "time" !in fieldnames
  {
    var col := "timestamp";
    var col := if "time" in fieldnames then "time" else col;
    if "Time" in fieldnames then "Time" else col
  }

  /** The time of one row: `parse_time(row.get(time_col, '0'))`. */
  function RowTime(row: map<string, string>, fieldnames: seq<string>, parse: string -> Option<real>): real {
    var col := TimeColumn(fieldnames);
    ParseTime(if col in row then row[col] else "0", parse)
  }

  /** A row without the time column is at time 0 when the parser reads "0" as zero. */
  lemma RowWithoutTimeIsAtZero(row: map<string, string>, fieldnames: seq<string>, parse: string -> Option<real>)
    requires TimeColumn(fieldnames) !in row
    requires parse("0") == Some(0.0)
    ensures RowTime(row, fieldnames, parse) == 0.0
  {
    PlainNumber([], "0", [], parse);
    assert [] + "0" + [] == "0";
  }
}
