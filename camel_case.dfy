/**
 * The attribute-name-to-property-name rewrite `toCamelCase`, identical in both
 * elements: every match of the global pattern "one or more dashes, then an
 * optional lower-case letter" is replaced. Away from offset 0 the match becomes
 * the letter upper-cased, or nothing when there is no letter; at offset 0 it
 * becomes its last character as it is (the letter, or a single dash).
 * The scan below visits the string left to right as the global replace does.
 */
module CamelCase {

  predicate IsLower(c: char)
  {
    'a' <= c <= 'z'
  }

  function Upper(c: char): (u: char)
    requires IsLower(c)
    ensures 'A' <= u <= 'Z'
  {
    (c as int - 32) as char
  }

  /** Length of the run of dashes that `s` starts with (the greedy `(-)+`). */
  function DashRun(s: string): (n: nat)
    ensures n <= |s|
    ensures forall i :: 0 <= i < n ==> s[i] == '-'
    ensures n < |s| ==> s[n] != '-'
  {
    if s != [] && s[0] == '-' then 1 + DashRun(s[1..]) else 0
  }

  /** The replacement scan; `atStart` holds when the scan is at offset 0 of the original string. */
  function Replace(s: string, atStart: bool): (r: string)
    ensures |r| <= |s|
    decreases |s|
  {
    if s == [] then []
    else if s[0] != '-' then [s[0]] + Replace(s[1..], false)
    else
      var n := DashRun(s);
      if n < |s| && IsLower(s[n]) then
        [if atStart then s[n] else Upper(s[n])] + Replace(s[n + 1..], false)
      else
        (if atStart then "-" else "") + Replace(s[n..], false)
  }

  /** `toCamelCase`: the rewrite only ever drops dashes, so the name never grows. */
  function ToCamelCase(s: string): (r: string)
    ensures |r| <= |s|
  {
    Replace(s, true)
  }

  /** A string without dashes passes through the scan unchanged. */
  lemma {:induction false} ReplaceNoDash(s: string, atStart: bool)
    requires '-' !in s
    ensures Replace(s, atStart) == s
  {
    if s != [] {
      assert s[0] in s;
      assert forall c :: c in s[1..] ==> c in s;
      ReplaceNoDash(s[1..], false);
    }
  }

  /** Names without "-" are not changed ("interval" stays "interval"). */
  lemma NoDashUnchanged(s: string)
    requires '-' !in s
    ensures ToCamelCase(s) == s
  {
    ReplaceNoDash(s, true);
  }

  /** At offset 0 a dash before a lower-case letter is dropped and the letter kept as it is: "-webkit" stays "webkit". */
  lemma LeadingDashDropped(w: string)
    requires w != [] && IsLower(w[0]) && '-' !in w
    ensures ToCamelCase("-" + w) == w
  {
    var s := "-" + w;
    assert DashRun(s[1..]) == 0 by { assert s[1..] == w; }
    assert DashRun(s) == 1;
    assert s[2..] == w[1..];
    assert '-' !in w[1..] by { assert forall c :: c in w[1..] ==> c in w; }
    ReplaceNoDash(w[1..], false);
    assert w == [w[0]] + w[1..];
  }

  /** Away from offset 0 every dash is rewritten away, and the first character survives when it is not a dash. */
  lemma {:induction false} ReplaceInnerHasNoDash(s: string)
    ensures '-' !in Replace(s, false)
    ensures s != [] && s[0] != '-' ==> Replace(s, false) != [] && Replace(s, false)[0] == s[0]
    decreases |s|
  {
    if s == [] {
    } else if s[0] != '-' {
      ReplaceInnerHasNoDash(s[1..]);
    } else {
      var n := DashRun(s);
      if n < |s| && IsLower(s[n]) {
        ReplaceInnerHasNoDash(s[n + 1..]);
        assert Upper(s[n]) != '-';
      } else {
        ReplaceInnerHasNoDash(s[n..]);
      }
    }
  }

  /**
   * Shape of every result: a dash can only remain at index 0, and then it is not
   * followed by a lower-case letter.
   */
  ghost predicate CamelShaped(r: string)
  {
    && (forall i :: 0 < i < |r| ==> r[i] != '-')
    && (|r| > 1 && r[0] == '-' ==> !IsLower(r[1]))
  }

  lemma ToCamelCaseShape(s: string)
    ensures CamelShaped(ToCamelCase(s))
  {
    var r := ToCamelCase(s);
    if s == [] {
    } else if s[0] != '-' {
      ReplaceInnerHasNoDash(s[1..]);
      assert r == [s[0]] + Replace(s[1..], false);
      assert forall i :: 0 < i < |r| ==> r[i] == Replace(s[1..], false)[i - 1];
    } else {
      var n := DashRun(s);
      if n < |s| && IsLower(s[n]) {
        ReplaceInnerHasNoDash(s[n + 1..]);
        assert r == [s[n]] + Replace(s[n + 1..], false);
        assert forall i :: 0 < i < |r| ==> r[i] == Replace(s[n + 1..], false)[i - 1];
      } else {
        ReplaceInnerHasNoDash(s[n..]);
        var tail := Replace(s[n..], false);
        assert r == "-" + tail;
        assert forall i :: 0 < i < |r| ==> r[i] == tail[i - 1];
        if |r| > 1 {
          assert s[n..] != [] && s[n..][0] == s[n];
          assert r[1] == tail[0] == s[n];
        }
      }
    }
  }

  /** Every result of the rewrite is left as it is by a second rewrite. */
  lemma ShapedIsFixed(r: string)
    requires CamelShaped(r)
    ensures ToCamelCase(r) == r
  {
    if r != [] && r[0] == '-' {
      assert '-' !in r[1..] by {
        forall i | 0 <= i < |r[1..]| ensures r[1..][i] != '-' {
          assert r[1..][i] == r[i + 1];
        }
      }
      assert DashRun(r) == 1 by {
        if |r| > 1 { assert DashRun(r[1..]) == 0; }
      }
      ReplaceNoDash(r[1..], false);
      assert ToCamelCase(r) == "-" + r[1..];
    } else {
      assert '-' !in r by {
        forall i | 0 <= i < |r| ensures r[i] != '-' { }
      }
      ReplaceNoDash(r, true);
    }
  }

  /** The rewrite is idempotent. */
  lemma Idempotent(s: string)
    ensures ToCamelCase(ToCamelCase(s)) == ToCamelCase(s)
  {
    ToCamelCaseShape(s);
    ShapedIsFixed(ToCamelCase(s));
  }

  /** A word that can follow a dash in a dashed attribute name: non-empty, starting lower-case, no dashes. */
  predicate TailWord(w: string)
  {
    w != [] && IsLower(w[0]) && '-' !in w
  }

  /** The dashed tail "-b-c" of a name made of words. */
  function DashTail(words: seq<string>): string
  {
    if words == [] then [] else "-" + words[0] + DashTail(words[1..])
  }

  /** The camel-case tail "BC" of the same words: each word with its first letter upper-cased. */
  function Capitalized(words: seq<string>): string
    requires forall i :: 0 <= i < |words| ==> TailWord(words[i])
  {
    if words == [] then []
    else
      assert TailWord(words[0]);
      [Upper(words[0][0])] + words[0][1..] + Capitalized(words[1..])
  }

  /** Characters that are not dashes pass through the scan one by one. */
  lemma {:induction false} ReplaceNoDashPrefix(p: string, x: string)
    requires '-' !in p
    ensures Replace(p + x, false) == p + Replace(x, false)
  {
    if p != [] {
      assert p[0] in p;
      assert '-' !in p[1..] by {
        forall c | c in p[1..] ensures c != '-' { assert c in p; }
      }
      assert (p + x)[1..] == p[1..] + x;
      ReplaceNoDashPrefix(p[1..], x);
    } else {
      assert p + x == x;
    }
  }

  /** A dash followed by a word away from offset 0 becomes the word with its first letter upper-cased. */
  lemma ReplaceDashedWord(w: string, x: string)
    requires TailWord(w)
    ensures Replace("-" + w + x, false) == [Upper(w[0])] + w[1..] + Replace(x, false)
  {
    var s := "-" + w + x;
    assert s[1..] == w + x;
    assert DashRun(s) == 1 by {
      assert s[1..][0] == w[0];
    }
    assert s[1] == w[0];
    assert s[2..] == w[1..] + x;
    assert '-' !in w[1..] by {
      forall c | c in w[1..] ensures c != '-' { assert c in w; }
    }
    ReplaceNoDashPrefix(w[1..], x);
  }

  lemma {:induction false} ReplaceDashTail(words: seq<string>)
    requires forall i :: 0 <= i < |words| ==> TailWord(words[i])
    ensures Replace(DashTail(words), false) == Capitalized(words)
  {
    if words != [] {
      ReplaceDashedWord(words[0], DashTail(words[1..]));
      ReplaceDashTail(words[1..]);
      assert DashTail(words) == "-" + words[0] + DashTail(words[1..]);
    }
  }

  /**
   * A dashed attribute name "first-b-c" whose first word is not empty and whose
   * other words start lower-case becomes the camel-case name "firstBC".
   */
  lemma DashedNameToCamel(first: string, words: seq<string>)
    requires first != [] && '-' !in first
    requires forall i :: 0 <= i < |words| ==> TailWord(words[i])
    ensures ToCamelCase(first + DashTail(words)) == first + Capitalized(words)
  {
    var t, c := DashTail(words), Capitalized(words);
    ReplaceFirstWord(first, t);
    ReplaceDashTail(words);
    HeadTail(first, c);
  }

  lemma HeadTail(a: string, c: string)
    requires a != []
    ensures [a[0]] + (a[1..] + c) == a + c
  {
    assert a == [a[0]] + a[1..];
  }

  /** Away from the dashed tail, a dash-free first word is copied as it is. */
  lemma ReplaceFirstWord(first: string, t: string)
    requires first != [] && '-' !in first
    ensures ToCamelCase(first + t) == [first[0]] + (first[1..] + Replace(t, false))
  {
    var s := first + t;
    assert s[0] == first[0] && s[0] != '-' by { assert first[0] in first; }
    assert s[1..] == first[1..] + t;
    assert '-' !in first[1..] by {
      forall c | c in first[1..] ensures c != '-' { assert c in first; }
    }
    ReplaceNoDashPrefix(first[1..], t);
  }

  /** The two-word case: "a-b" becomes "aB". */
  lemma TwoWordName(first: string, second: string, upper: char)
    requires first != [] && '-' !in first && TailWord(second) && Upper(second[0]) == upper
    ensures ToCamelCase(first + "-" + second) == first + [upper] + second[1..]
  {
    DashedNameToCamel(first, [second]);
    assert DashTail([second]) == "-" + second + DashTail([]);
    assert Capitalized([second]) == [upper] + second[1..] + Capitalized([]);
    assert first + DashTail([second]) == first + "-" + second;
  }

  /** The dashed observed attribute names and the property names they are forwarded to. */
  lemma AspectRatioName()
    ensures ToCamelCase("aspect-ratio") == "aspectRatio"
  {
    var first, second := "aspect", "ratio";
    assert '-' !in first && TailWord(second) && Upper(second[0]) == 'R';
    TwoWordName(first, second, 'R');
    assert first + "-" + second == "aspect-ratio";
    assert first + ['R'] + second[1..] == "aspectRatio";
  }

  lemma TimelineVideoName()
    ensures ToCamelCase("timeline-video") == "timelineVideo"
  {
    var first, second := "timeline", "video";
    assert '-' !in first && TailWord(second) && Upper(second[0]) == 'V';
    TwoWordName(first, second, 'V');
    assert first + "-" + second == "timeline-video";
    assert first + ['V'] + second[1..] == "timelineVideo";
  }

  lemma TimelineUrlName()
    ensures ToCamelCase("timeline-url") == "timelineUrl"
  {
    var first, second := "timeline", "url";
    assert '-' !in first && TailWord(second) && Upper(second[0]) == 'U';
    TwoWordName(first, second, 'U');
    assert first + "-" + second == "timeline-url";
    assert first + ['U'] + second[1..] == "timelineUrl";
  }

  lemma TestNameName()
    ensures ToCamelCase("test-name") == "testName"
  {
    var first, second := "test", "name";
    assert '-' !in first && TailWord(second) && Upper(second[0]) == 'N';
    TwoWordName(first, second, 'N');
    assert first + "-" + second == "test-name";
    assert first + ['N'] + second[1..] == "testName";
  }

  lemma TestIdName()
    ensures ToCamelCase("test-id") == "testId"
  {
    var first, second := "test", "id";
    assert '-' !in first && TailWord(second) && Upper(second[0]) == 'I';
    TwoWordName(first, second, 'I');
    assert first + "-" + second == "test-id";
    assert first + ['I'] + second[1..] == "testId";
  }
}
