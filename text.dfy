/** Python string and number behaviour that the shop's rules rely on:
    case folding, substring search, `str.strip`, slicing with a possibly
    negative bound, and the text forms of prices. */
module Text {

  datatype Option<T> = None | Some(value: T)

  datatype Result<T, E> = Ok(value: T) | Err(error: E)

  /** ASCII upper-case letter. */
  predicate IsUpper(c: char) { 'A' <= c <= 'Z' }

  /** ASCII lower-case letter. */
  predicate IsLower(c: char) { 'a' <= c <= 'z' }

  predicate IsLetter(c: char) { IsUpper(c) || IsLower(c) }

  predicate IsDigit(c: char) { '0' <= c <= '9' }

  function LowerChar(c: char): char
  {
    if IsUpper(c) then (c as int + 32) as char else c
  }

  function UpperChar(c: char): char
  {
    if IsLower(c) then (c as int - 32) as char else c
  }

  /** `str.lower()` restricted to the ASCII letters. */
  function Lower(s: string): (r: string)
    ensures |r| == |s|
    ensures forall i :: 0 <= i < |s| ==> r[i] == LowerChar(s[i])
  {
    if s == [] then [] else [LowerChar(s[0])] + Lower(s[1..])
  }

  /** `str.upper()` restricted to the ASCII letters. */
  function Upper(s: string): (r: string)
    ensures |r| == |s|
    ensures forall i :: 0 <= i < |s| ==> r[i] == UpperChar(s[i])
  {
    if s == [] then [] else [UpperChar(s[0])] + Upper(s[1..])
  }

  /** `pat` occurs in `s` at position `i`. */
  ghost predicate OccursAt(s: string, pat: string, i: int)
  {
    0 <= i && i + |pat| <= |s| && s[i..i + |pat|] == pat
  }

  /** Python's `pat in s`, searched from the left. */
  function Contains(s: string, pat: string): bool
  {
    |pat| <= |s| && (s[..|pat|] == pat || Contains(s[1..], pat))
  }

  /** Every occurrence is found by the search. */
  lemma {:induction false} OccursContains(s: string, pat: string, i: int)
    requires OccursAt(s, pat, i)
    ensures Contains(s, pat)
  {
    if i > 0 {
      assert s[1..][i - 1..i - 1 + |pat|] == s[i..i + |pat|];
      OccursContains(s[1..], pat, i - 1);
    }
  }

  /** The search agrees with the existence of an occurrence. */
  lemma {:induction false} ContainsIff(s: string, pat: string)
    ensures Contains(s, pat) <==> exists i :: OccursAt(s, pat, i)
  {
    if Contains(s, pat) {
      if s[..|pat|] == pat {
        assert OccursAt(s, pat, 0);
      } else {
        ContainsIff(s[1..], pat);
        var i :| OccursAt(s[1..], pat, i);
        assert s[1..][i..i + |pat|] == s[i + 1..i + 1 + |pat|];
        assert OccursAt(s, pat, i + 1);
      }
    }
    forall i | OccursAt(s, pat, i) ensures Contains(s, pat) {
      OccursContains(s, pat, i);
    }
  }

  /** A pattern is found wherever it is spliced in. */
  lemma ContainsSpliced(pre: string, pat: string, post: string)
    ensures Contains(pre + pat + post, pat)
  {
    var s := pre + pat + post;
    assert s[|pre|..|pre| + |pat|] == pat;
    assert OccursAt(s, pat, |pre|);
    ContainsIff(s, pat);
  }

  /** Python's `any(p in s for p in pats)`. */
  predicate ContainsAny(s: string, pats: seq<string>)
  {
    exists j :: 0 <= j < |pats| && Contains(s, pats[j])
  }

  /** One of the patterns occurs somewhere in `s`. */
  ghost predicate OccursAny(s: string, pats: seq<string>)
  {
    exists j, i :: 0 <= j < |pats| && OccursAt(s, pats[j], i)
  }

  /** `any(p in s for p in pats)` holds exactly when one of the patterns
      occurs somewhere in `s`. */
  lemma ContainsAnyIff(s: string, pats: seq<string>)
    ensures ContainsAny(s, pats) <==> OccursAny(s, pats)
  {
    forall j | 0 <= j < |pats| {
      ContainsIff(s, pats[j]);
    }
  }

  /** Lower-casing distributes over concatenation. */
  lemma LowerAppend(a: string, b: string)
    ensures Lower(a + b) == Lower(a) + Lower(b)
  {
  }

  /** The characters Python's `str.isspace` accepts: `str.strip()` removes these. */
  predicate IsSpace(c: char)
  {
    ('\U{9}' <= c <= '\U{D}') || ('\U{1C}' <= c <= '\U{20}') || c == '\U{85}' || c == '\U{A0}'
    || c == '\U{1680}' || ('\U{2000}' <= c <= '\U{200A}') || c == '\U{2028}' || c == '\U{2029}'
    || c == '\U{202F}' || c == '\U{205F}' || c == '\U{3000}'
  }

  /** No whitespace at either end. */
  predicate Trimmed(s: string)
  {
    s == [] || (!IsSpace(s[0]) && !IsSpace(s[|s| - 1]))
  }

  /** The number of whitespace characters at the start. */
  function LeadingSpace(s: string): (n: nat)
    ensures n <= |s|
    ensures forall j :: 0 <= j < n ==> IsSpace(s[j])
    ensures n < |s| ==> !IsSpace(s[n])
  {
    if s == [] || !IsSpace(s[0]) then 0 else 1 + LeadingSpace(s[1..])
  }

  /** The number of whitespace characters at the end. */
  function TrailingSpace(s: string): (n: nat)
    ensures n <= |s|
    ensures forall j :: |s| - n <= j < |s| ==> IsSpace(s[j])
    ensures n < |s| ==> !IsSpace(s[|s| - n - 1])
  {
    if s == [] || !IsSpace(s[|s| - 1]) then 0 else 1 + TrailingSpace(s[..|s| - 1])
  }

  /** Python's `str.strip()`: the slice left after cutting the whitespace at
      both ends; no whitespace remains at either end. */
  function Strip(s: string): (r: string)
    ensures Trimmed(r)
    ensures LeadingSpace(s) + |r| <= |s|
    ensures r == s[LeadingSpace(s)..LeadingSpace(s) + |r|]
    ensures forall j :: LeadingSpace(s) + |r| <= j < |s| ==> IsSpace(s[j])
  {
    var a := LeadingSpace(s);
    var t := s[a..];
    var b := TrailingSpace(t);
    assert forall j :: a + |t| - b <= j < |s| ==> s[j] == t[j - a];
    assert |t| - b > 0 ==> t[0] == s[a];
    t[..|t| - b]
  }

  /** Stripping a string that is already trimmed changes nothing. */
  lemma StripTrimmed(s: string)
    requires Trimmed(s)
    ensures Strip(s) == s
  {
    assert LeadingSpace(s) == 0;
    assert TrailingSpace(s) == 0;
  }

  /** Python's `s[:k]`: a negative bound counts from the end. */
  function PyPrefix<T>(s: seq<T>, k: int): (r: seq<T>)
    ensures k >= 0 ==> r == s[..if k < |s| then k else |s|]
    ensures k < 0 ==> r == s[..if |s| + k > 0 then |s| + k else 0]
  {
    if k >= 0 then
      (if k < |s| then s[..k] else s)
    else
      (if |s| + k > 0 then s[..|s| + k] else [])
  }

  /** The removal of every character of a class, as `re.sub('[...]', '', s)` does. */
  function RemoveAll(s: string, bad: set<char>): (r: string)
    ensures forall i :: 0 <= i < |r| ==> r[i] !in bad
    ensures |r| <= |s|
    ensures forall x :: x !in bad ==> (x in r <==> x in s)
  {
    if s == [] then [] else (if s[0] in bad then [] else [s[0]]) + RemoveAll(s[1..], bad)
  }

  /** The removal works piece by piece: the kept characters of a
      concatenation are those of each part, in order. */
  lemma {:induction false} RemoveAllAppend(a: string, b: string, bad: set<char>)
    ensures RemoveAll(a + b, bad) == RemoveAll(a, bad) + RemoveAll(b, bad)
  {
    if a == [] {
      assert a + b == b;
    } else {
      assert (a + b)[0] == a[0] && (a + b)[1..] == a[1..] + b;
      RemoveAllAppend(a[1..], b, bad);
    }
  }

  /** A single character is dropped when it is in the class and kept
      otherwise; with `RemoveAllAppend` this fixes the result of every
      input. */
  lemma RemoveAllOne(c: char, bad: set<char>)
    ensures RemoveAll([c], bad) == if c in bad then [] else [c]
  {
    assert [c][1..] == [];
  }

  /** A string without any of the characters is left as it is. */
  lemma {:induction false} RemoveAllAbsent(s: string, bad: set<char>)
    requires forall i :: 0 <= i < |s| ==> s[i] !in bad
    ensures RemoveAll(s, bad) == s
  {
    if s != [] {
      RemoveAllAbsent(s[1..], bad);
    }
  }

  /** Python's `s.replace(target, with)`: occurrences are replaced left to
      right without overlapping. */
  function Replace(s: string, target: string, with: string): (r: string)
    requires target != ""
    ensures !Contains(s, target) ==> r == s
    ensures |with| == |target| ==> |r| == |s|
    ensures |target| == 1 && |with| == 1 ==>
              forall i :: 0 <= i < |s| ==> r[i] == (if s[i] == target[0] then with[0] else s[i])
  {
    if |s| < |target| then s
    else if s[..|target|] == target then with + Replace(s[|target|..], target, with)
    else [s[0]] + Replace(s[1..], target, with)
  }

  function DigitChar(d: nat): char
    requires d < 10
  {
    ('0' as int + d) as char
  }

  /** The number a string of decimal digits denotes, read left to right. */
  function DigitsValue(s: string): int
  {
    if s == [] then 0 else 10 * DigitsValue(s[..|s| - 1]) + (s[|s| - 1] as int - '0' as int)
  }

  lemma DigitsValueSnoc(s: string, d: nat)
    requires d < 10
    ensures DigitsValue(s + [DigitChar(d)]) == 10 * DigitsValue(s) + d
  {
    assert (s + [DigitChar(d)])[..|s|] == s;
  }

  /** Python's `str(n)` for a natural number: the decimal digits of `n`,
      without a leading zero unless `n` is 0. */
  function NatText(n: nat): (r: string)
    ensures |r| >= 1
    ensures forall i :: 0 <= i < |r| ==> IsDigit(r[i])
    ensures DigitsValue(r) == n
    ensures |r| == 1 || r[0] != '0'
  {
    if n < 10 then
      assert [DigitChar(n)] == [] + [DigitChar(n)];
      DigitsValueSnoc([], n);
      [DigitChar(n)]
    else
      DigitsValueSnoc(NatText(n / 10), n % 10);
      NatText(n / 10) + [DigitChar(n % 10)]
  }

  /** `-` in front of a negative number's text, nothing otherwise. */
  function Sign(n: int): string
  {
    if n < 0 then "-" else ""
  }

  function Abs(n: int): nat
  {
    if n < 0 then -n else n
  }

  /** Python's `str(n)` for an integer: a minus sign exactly for a negative
      number, then the digits of its magnitude. */
  function IntText(n: int): (r: string)
    ensures |r| >= 1 + |Sign(n)| && r[..|Sign(n)|] == Sign(n)
    ensures forall i :: |Sign(n)| <= i < |r| ==> IsDigit(r[i])
    ensures DigitsValue(r[|Sign(n)|..]) == Abs(n)
  {
    var d := NatText(Abs(n));
    assert (Sign(n) + d)[|Sign(n)|..] == d;
    Sign(n) + d
  }

  /** `f` is the shortest run of one or two digits that writes `h`
      hundredths after a decimal point: "5" for 50, "05" for 5, "35" for 35. */
  predicate ShortFraction(f: string, h: int)
  {
    || (|f| == 1 && IsDigit(f[0]) && 10 * DigitsValue(f) == h)
    || (|f| == 2 && IsDigit(f[0]) && IsDigit(f[1]) && f[1] != '0' && DigitsValue(f) == h)
  }

  lemma DigitsValueTwo(a: nat, b: nat)
    requires a < 10 && b < 10
    ensures DigitsValue([DigitChar(a), DigitChar(b)]) == 10 * a + b
  {
    DigitsValueSnoc([], a);
    assert [DigitChar(a)] == [] + [DigitChar(a)];
    DigitsValueSnoc([DigitChar(a)], b);
    assert [DigitChar(a), DigitChar(b)] == [DigitChar(a)] + [DigitChar(b)];
  }

  /** The last two digits of `m` are its tenths digit and its last digit. */
  lemma SplitHundredths(m: nat)
    ensures 10 * ((m / 10) % 10) + m % 10 == m % 100
  {
    var q := m / 100;
    var h := m % 100;
    assert m == 100 * q + h;
    assert m / 10 == 10 * q + h / 10;
    assert (m / 10) % 10 == h / 10;
    assert m % 10 == h % 10;
  }

  /** Python's `repr` of the float `paise / 100`: the sign, the whole part,
      a point, and the fraction with at least one digit and no trailing
      zero ("900.0", "899.1", "12.35"). */
  function FloatText(paise: int): (r: string)
    ensures var w := Sign(paise) + NatText(Abs(paise) / 100) + ".";
            |r| > |w| && r[..|w|] == w && ShortFraction(r[|w|..], Abs(paise) % 100)
  {
    var m := Abs(paise);
    var w := Sign(paise) + NatText(m / 100) + ".";
    var tenths := (m / 10) % 10;
    var hundredths := m % 10;
    var f := if hundredths == 0 then [DigitChar(tenths)] else [DigitChar(tenths), DigitChar(hundredths)];
    DigitsValueSnoc([], tenths);
    assert [DigitChar(tenths)] == [] + [DigitChar(tenths)];
    DigitsValueTwo(tenths, hundredths);
    SplitHundredths(m);
    assert ShortFraction(f, m % 100);
    assert (w + f)[..|w|] == w && (w + f)[|w|..] == f;
    w + f
  }

  /** `str` of a two-place SQL DECIMAL holding `paise / 100`: the sign, the
      whole part, a point and exactly two digits ("1000.00", "12.05"). */
  function DecimalText(paise: int): (r: string)
    ensures var w := Sign(paise) + NatText(Abs(paise) / 100) + ".";
            |r| == |w| + 2 && r[..|w|] == w
            && IsDigit(r[|w|]) && IsDigit(r[|w| + 1]) && DigitsValue(r[|w|..]) == Abs(paise) % 100
  {
    var m := Abs(paise);
    var w := Sign(paise) + NatText(m / 100) + ".";
    var f := [DigitChar((m / 10) % 10), DigitChar(m % 10)];
    DigitsValueTwo((m / 10) % 10, m % 10);
    SplitHundredths(m);
    assert (w + f)[..|w|] == w && (w + f)[|w|..] == f;
    w + f
  }

  /** `sep.join(parts)`. */
  function Join(sep: string, parts: seq<string>): (r: string)
    ensures parts == [] ==> r == ""
    ensures |parts| == 1 ==> r == parts[0]
    ensures parts != [] ==> |r| >= |parts[0]| && r[..|parts[0]|] == parts[0]
  {
    if parts == [] then "" else if |parts| == 1 then parts[0] else parts[0] + sep + Join(sep, parts[1..])
  }

  /** Joining two non-empty lists is joining each and putting the
      separator between them. */
  lemma {:induction false} JoinAppend(sep: string, a: seq<string>, b: seq<string>)
    requires a != [] && b != []
    ensures Join(sep, a + b) == Join(sep, a) + sep + Join(sep, b)
  {
    assert (a + b)[0] == a[0];
    if |a| == 1 {
      assert (a + b)[1..] == b;
    } else {
      assert (a + b)[1..] == a[1..] + b;
      JoinAppend(sep, a[1..], b);
    }
  }
}
