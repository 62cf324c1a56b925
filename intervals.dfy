/**
 * The `interval` setters of both elements: a switch over the written value that
 * picks one of five sampling intervals and the number of fraction digits the
 * seconds labels are formatted with. The filmstrip element first turns a
 * number into its decimal string; the embed element compares the value as it
 * is, and lists "500" twice where the other lists "500" and "500ms".
 */
module Intervals {

  /** What can be written to the `interval` property: an attribute string, a number, or null (attribute removed). */
  datatype IntervalArg = Text(s: string) | Number(n: int) | Null

  /** The interval in ms and the minimum fraction digits of the label formatter. */
  datatype IntervalSetting = IntervalSetting(ms: int, digits: nat)

  const SUPPORTED_MS: set<int> := {16, 100, 500, 1000, 5000}

  /** The display precision the source pairs with each supported interval. */
  function Precision(ms: int): nat
  {
    if ms == 16 then 3 else if ms == 1000 || ms == 5000 then 0 else 1
  }

  /** A setting the setters can produce: one of the five intervals with its precision. */
  predicate Supported(s: IntervalSetting)
  {
    s.ms in SUPPORTED_MS && s.digits == Precision(s.ms)
  }

  /** The setting both elements start with (`#_intervalMs = 100`, one fraction digit). */
  const DEFAULT_SETTING := IntervalSetting(100, 1)

  function DigitChar(d: int): char
    requires 0 <= d < 10
  {
    ('0' as int + d) as char
  }

  /** Decimal digits of a natural number, as `toString` writes them. */
  function Digits(n: nat): (r: string)
    ensures |r| >= 1
    ensures n >= 10 ==> |r| >= 2
    ensures '0' <= r[0] <= '9'
  {
    if n < 10 then [DigitChar(n)] else Digits(n / 10) + [DigitChar(n % 10)]
  }

  /** `Number.prototype.toString()` of an integer. */
  function Decimal(n: int): (r: string)
    ensures |r| >= 1
    ensures r[0] == '-' <==> n < 0
  {
    if n < 0 then "-" + Digits(-n) else Digits(n)
  }

  /** Different numbers have different decimal strings. */
  lemma {:induction false} DigitsInjective(a: nat, b: nat)
    requires Digits(a) == Digits(b)
    ensures a == b
  {
    if a >= 10 && b >= 10 {
      var da, db := Digits(a), Digits(b);
      assert da[|da| - 1] == DigitChar(a % 10) && db[|db| - 1] == DigitChar(b % 10);
      assert a % 10 == b % 10;
      assert Digits(a / 10) == da[..|da| - 1] == db[..|db| - 1] == Digits(b / 10);
      DigitsInjective(a / 10, b / 10);
    }
  }

  /** The `switch` both setters run; `halfSecondCases` are the labels of the 500 ms case. */
  function Switch(key: IntervalArg, halfSecondCases: seq<string>): (r: IntervalSetting)
    ensures Supported(r)
  {
    if key.Text? && key.s in ["16", "16ms", "60fps"] then IntervalSetting(16, 3)
    else if key.Text? && key.s in ["1000", "1000ms", "1s"] then IntervalSetting(1000, 0)
    else if key.Text? && key.s in ["5000", "5000ms", "5s"] then IntervalSetting(5000, 0)
    else if key.Text? && key.s in halfSecondCases then IntervalSetting(500, 1)
    else DEFAULT_SETTING
  }

  /** The filmstrip element's setter: numbers are stringified before the switch. */
  function FilmstripSetting(a: IntervalArg): (r: IntervalSetting)
    ensures Supported(r)
  {
    var key := if a.Number? then Text(Decimal(a.n)) else a;
    Switch(key, ["500", "500ms", "0.5s"])
  }

  /** The embed element's setter: no stringification, and "500" written where "500ms" was meant. */
  function EmbedSetting(a: IntervalArg): (r: IntervalSetting)
    ensures Supported(r)
  {
    Switch(a, ["500", "500", "0.5s"])
  }

  /** The decimal strings of the five intervals. */
  lemma SupportedDecimals()
    ensures Decimal(16) == "16" && Decimal(100) == "100" && Decimal(500) == "500"
    ensures Decimal(1000) == "1000" && Decimal(5000) == "5000"
  {
    assert Digits(1) == "1" && Digits(5) == "5";
    assert Digits(16) == "16";
    assert Digits(10) == "10" && Digits(50) == "50";
    assert Digits(100) == "100" && Digits(500) == "500";
  }

  /**
   * A number written to the filmstrip element selects itself when it is one of
   * the five intervals and 100 ms otherwise.
   */
  lemma FilmstripNumber(n: int)
    ensures FilmstripSetting(Number(n)).ms == (if n in SUPPORTED_MS then n else 100)
  {
    var d := Decimal(n);
    if n < 0 {
      DashIsNoCase(d);
    } else {
      SupportedDecimals();
      AllDigits(n);
      DigitStringCase(d);
      if d == "16" { DigitsInjective(n, 16); }
      else if d == "1000" { DigitsInjective(n, 1000); }
      else if d == "5000" { DigitsInjective(n, 5000); }
      else if d == "500" { DigitsInjective(n, 500); }
    }
  }

  /** `toString` of a natural number writes decimal digits only. */
  lemma {:induction false} AllDigits(n: nat)
    ensures forall i :: 0 <= i < |Digits(n)| ==> '0' <= Digits(n)[i] <= '9'
  {
    if n >= 10 {
      AllDigits(n / 10);
    }
  }

  /** A string of digits can only match the numeric case labels. */
  lemma DigitStringCase(d: string)
    requires forall i :: 0 <= i < |d| ==> '0' <= d[i] <= '9'
    ensures FilmstripSetting(Text(d)) ==
      if d == "16" then IntervalSetting(16, 3)
      else if d == "1000" then IntervalSetting(1000, 0)
      else if d == "5000" then IntervalSetting(5000, 0)
      else if d == "500" then IntervalSetting(500, 1)
      else DEFAULT_SETTING
  {
    assert d != "16ms" && d != "60fps" by { if |d| > 2 { assert d[2] != 'm' && d[2] != 'f'; } }
    assert d != "1000ms" && d != "1s" by { if |d| > 4 { assert d[4] != 'm'; } if |d| > 1 { assert d[1] != 's'; } }
    assert d != "5000ms" && d != "5s" by { if |d| > 4 { assert d[4] != 'm'; } if |d| > 1 { assert d[1] != 's'; } }
    assert d != "500ms" && d != "0.5s" by { if |d| > 3 { assert d[3] != 'm'; } if |d| > 1 { assert d[1] != '.'; } }
  }

  /** A string starting with a dash (a negative number) matches no case label. */
  lemma DashIsNoCase(d: string)
    requires d != [] && d[0] == '-'
    ensures FilmstripSetting(Text(d)) == DEFAULT_SETTING
  {
    assert d != "16" && d != "16ms" && d != "60fps";
    assert d != "1000" && d != "1000ms" && d != "1s";
    assert d != "5000" && d != "5000ms" && d != "5s";
    assert d != "500" && d != "500ms" && d != "0.5s";
  }

  /** The seconds-style names select the interval they name, in both elements. */
  lemma NamedIntervals()
    ensures FilmstripSetting(Text("60fps")) == EmbedSetting(Text("60fps")) == IntervalSetting(16, 3)
    ensures FilmstripSetting(Text("0.1s")) == EmbedSetting(Text("0.1s")) == IntervalSetting(100, 1)
    ensures FilmstripSetting(Text("0.5s")) == EmbedSetting(Text("0.5s")) == IntervalSetting(500, 1)
    ensures FilmstripSetting(Text("1s")) == EmbedSetting(Text("1s")) == IntervalSetting(1000, 0)
    ensures FilmstripSetting(Text("5s")) == EmbedSetting(Text("5s")) == IntervalSetting(5000, 0)
  {
  }

  /**
   * The two tables agree on every attribute string except "500ms", which the
   * embed element sends to the 100 ms default; on numbers the embed element
   * always falls to the default, since a number never equals a case label.
   */
  lemma TablesAgreeExcept(s: string, n: int)
    ensures FilmstripSetting(Text(s)) == EmbedSetting(Text(s)) <==> s != "500ms"
    ensures FilmstripSetting(Text("500ms")) == IntervalSetting(500, 1)
    ensures EmbedSetting(Text("500ms")) == DEFAULT_SETTING
    ensures EmbedSetting(Number(n)) == DEFAULT_SETTING
    ensures FilmstripSetting(Null) == EmbedSetting(Null) == DEFAULT_SETTING
  {
    if s == "500ms" {
      assert s !in ["16", "16ms", "60fps"] && s !in ["1000", "1000ms", "1s"] && s !in ["5000", "5000ms", "5s"];
      assert s in ["500", "500ms", "0.5s"] && s !in ["500", "500", "0.5s"];
    }
  }
}
