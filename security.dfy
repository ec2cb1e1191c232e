/** `SecurityManager` and `Config` of backend/config.py: the e-mail and
    Indian mobile-number checks, input sanitising, and the list of LLM
    providers whose API keys are configured. */
module Security {
  import opened Text

  // ---------------------------------------------------------------------
  // validate_email: ^[a-zA-Z0-9._%+-]+@[a-zA-Z0-9.-]+\.[a-zA-Z]{2,}$
  // ---------------------------------------------------------------------

  predicate IsLocalChar(c: char)
  {
    IsLetter(c) || IsDigit(c) || c == '.' || c == '_' || c == '%' || c == '+' || c == '-'
  }

  predicate IsDomainChar(c: char)
  {
    IsLetter(c) || IsDigit(c) || c == '.' || c == '-'
  }

  /** The pattern matches `s` in full with its '@' at `at` and the dot
      before the top-level domain at `dot`. */
  ghost predicate EmailMatchAt(s: string, at: int, dot: int)
  {
    && 1 <= at && at + 2 <= dot && dot + 3 <= |s|
    && s[at] == '@' && s[dot] == '.'
    && (forall i :: 0 <= i < at ==> IsLocalChar(s[i]))
    && (forall i :: at < i < dot ==> IsDomainChar(s[i]))
    && (forall i :: dot < i < |s| ==> IsLetter(s[i]))
  }

  /** What the anchored pattern denotes, with backtracking over both splits. */
  ghost predicate MatchesEmailPattern(s: string)
  {
    exists at, dot :: EmailMatchAt(s, at, dot)
  }

  /** The index of the first `c`, or |s| when there is none. */
  function FirstIndex(s: string, c: char): (n: nat)
    ensures n <= |s|
    ensures forall i :: 0 <= i < n ==> s[i] != c
    ensures n < |s| ==> s[n] == c
  {
    if s == [] || s[0] == c then 0 else 1 + FirstIndex(s[1..], c)
  }

  /** The index of the last `c`, or -1 when there is none. */
  function LastIndex(s: string, c: char): (n: int)
    ensures -1 <= n < |s|
    ensures forall i :: n < i < |s| ==> s[i] != c
    ensures n >= 0 ==> s[n] == c
  {
    if s == [] then -1 else if s[|s| - 1] == c then |s| - 1 else LastIndex(s[..|s| - 1], c)
  }

  /** One left-to-right reading of the pattern: the local part runs to the
      first '@', the rest is domain characters whose last '.' has at least
      one character before it and two or more letters after it. */
  predicate EmailShape(s: string)
  {
    var at := FirstIndex(s, '@');
    && 1 <= at < |s|
    && (forall i :: 0 <= i < at ==> IsLocalChar(s[i]))
    && (forall i :: at < i < |s| ==> IsDomainChar(s[i]))
    && var dot := LastIndex(s, '.');
    && at + 2 <= dot && dot + 3 <= |s|
    && (forall i :: dot < i < |s| ==> IsLetter(s[i]))
  }

  /** The reading agrees with the pattern's meaning. */
  lemma EmailShapeMatches(s: string)
    ensures EmailShape(s) <==> MatchesEmailPattern(s)
  {
    if EmailShape(s) {
      assert EmailMatchAt(s, FirstIndex(s, '@'), LastIndex(s, '.'));
    }
    if MatchesEmailPattern(s) {
      var at, dot :| EmailMatchAt(s, at, dot);
      assert forall i :: 0 <= i < at ==> s[i] != '@';
      assert FirstIndex(s, '@') == at;
      assert forall i :: dot < i < |s| ==> s[i] != '.';
      assert LastIndex(s, '.') == dot;
    }
  }

  /** One reading of the whole check: `re.match` anchors at the start and
      `$` also matches just before one final newline. */
  predicate EmailReading(email: string)
  {
    EmailShape(email) || (|email| > 0 && email[|email| - 1] == '\n' && EmailShape(email[..|email| - 1]))
  }

  /** What the anchored pattern with `$` accepts: a full match of the
      pattern, optionally followed by one final newline. */
  ghost predicate EmailPatternAccepts(email: string)
  {
    exists body, suffix :: suffix in {"", "\n"} && email == body + suffix && MatchesEmailPattern(body)
  }

  lemma EmailReadingSound(email: string)
    requires EmailReading(email)
    ensures EmailPatternAccepts(email)
  {
    if EmailShape(email) {
      EmailShapeMatches(email);
      assert email == email + "";
    } else {
      var body := email[..|email| - 1];
      EmailShapeMatches(body);
      assert email == body + "\n";
    }
  }

  lemma EmailReadingComplete(email: string)
    requires EmailPatternAccepts(email)
    ensures EmailReading(email)
  {
    var body, suffix :| suffix in {"", "\n"} && email == body + suffix && MatchesEmailPattern(body);
    EmailShapeMatches(body);
    if suffix == "" {
      assert email == body;
    } else {
      assert email[..|email| - 1] == body;
    }
  }

  /** The reading accepts exactly what the pattern accepts. */
  lemma EmailReadingIff(email: string)
    ensures EmailReading(email) <==> EmailPatternAccepts(email)
  {
    if EmailReading(email) {
      EmailReadingSound(email);
    }
    if EmailPatternAccepts(email) {
      EmailReadingComplete(email);
    }
  }

  /** `SecurityManager.validate_email`. */
  function ValidateEmail(email: string): (b: bool)
    ensures b <==> EmailPatternAccepts(email)
  {
    EmailReadingIff(email);
    EmailReading(email)
  }

  /** A valid address holds exactly one '@', with a local part before it. */
  lemma ValidEmailHasOneAt(email: string)
    requires ValidateEmail(email)
    ensures exists at :: 1 <= at < |email| && email[at] == '@'
                      && forall i :: 0 <= i < |email| && i != at ==> email[i] != '@'
  {
    assert EmailReading(email);
    var s := if EmailShape(email) then email else email[..|email| - 1];
    var at := FirstIndex(s, '@');
    assert email[at] == '@';
    assert forall i :: 0 <= i < |email| && i != at ==> email[i] != '@' by {
      forall i | 0 <= i < |email| && i != at ensures email[i] != '@' {
        if i < |s| {
          assert i < at ==> s[i] != '@';
          assert i > at ==> IsDomainChar(s[i]);
        }
      }
    }
  }

  // ---------------------------------------------------------------------
  // validate_phone: ^(\+91)?[6-9]\d{9}$
  // ---------------------------------------------------------------------

  /** Ten digits, the first of them 6 to 9. */
  predicate IsMobileNumber(d: string)
  {
    |d| == 10 && '6' <= d[0] <= '9' && forall i :: 1 <= i < 10 ==> IsDigit(d[i])
  }

  /** One left-to-right reading of the pattern: drop a leading "+91" if
      present, then expect a mobile number and nothing else. */
  predicate PhoneShape(s: string)
  {
    var body := if |s| >= 3 && s[..3] == "+91" then s[3..] else s;
    IsMobileNumber(body)
  }

  /** One reading of the whole check, with `$` accepting one final newline. */
  predicate PhoneReading(phone: string)
  {
    PhoneShape(phone) || (|phone| > 0 && phone[|phone| - 1] == '\n' && PhoneShape(phone[..|phone| - 1]))
  }

  /** What the anchored pattern denotes: an optional "+91", a mobile
      number and, for `$`, an optional final newline. */
  ghost predicate MatchesPhonePattern(phone: string)
  {
    exists prefix, d, suffix :: prefix in {"", "+91"} && suffix in {"", "\n"}
                             && IsMobileNumber(d) && phone == prefix + d + suffix
  }

  lemma PhoneShapeOf(prefix: string, d: string)
    requires prefix in {"", "+91"} && IsMobileNumber(d)
    ensures PhoneShape(prefix + d)
  {
    var s := prefix + d;
    if prefix == "" {
      assert s == d;
      assert !(|s| >= 3 && s[..3] == "+91") by { assert s[0] == d[0]; }
    } else {
      assert s[..3] == "+91" && s[3..] == d;
    }
  }

  lemma PhoneReadingSound(phone: string)
    requires PhoneReading(phone)
    ensures MatchesPhonePattern(phone)
  {
    var s := if PhoneShape(phone) then phone else phone[..|phone| - 1];
    var suffix := if PhoneShape(phone) then "" else "\n";
    assert phone == s + suffix;
    if |s| >= 3 && s[..3] == "+91" {
      assert phone == "+91" + s[3..] + suffix;
    } else {
      assert phone == "" + s + suffix;
    }
  }

  lemma PhoneReadingComplete(phone: string)
    requires MatchesPhonePattern(phone)
    ensures PhoneReading(phone)
  {
    var prefix, d, suffix :| prefix in {"", "+91"} && suffix in {"", "\n"}
                           && IsMobileNumber(d) && phone == prefix + d + suffix;
    PhoneShapeOf(prefix, d);
    if suffix == "\n" {
      assert phone[..|phone| - 1] == prefix + d;
    } else {
      assert phone == prefix + d;
    }
  }

  /** The accepted strings are exactly an optional "+91", a mobile number
      and an optional final newline. */
  lemma PhoneReadingIff(phone: string)
    ensures PhoneReading(phone) <==> MatchesPhonePattern(phone)
  {
    if PhoneReading(phone) {
      PhoneReadingSound(phone);
    }
    if MatchesPhonePattern(phone) {
      PhoneReadingComplete(phone);
    }
  }

  /** `SecurityManager.validate_phone`. */
  function ValidatePhone(phone: string): (b: bool)
    ensures b <==> MatchesPhonePattern(phone)
  {
    PhoneReadingIff(phone);
    PhoneReading(phone)
  }

  // ---------------------------------------------------------------------
  // sanitize_input
  // ---------------------------------------------------------------------

  /** `r` is the stretch of `p` starting at `a`, with only whitespace
      before and after it. */
  predicate SpaceBounded(r: string, p: string, a: int)
  {
    && 0 <= a && a + |r| <= |p| && r == p[a..a + |r|]
    && (forall j :: 0 <= j < a ==> IsSpace(p[j]))
    && (forall j :: a + |r| <= j < |p| ==> IsSpace(p[j]))
  }

  lemma StripWindow(p: string)
    ensures SpaceBounded(Strip(p), p, LeadingSpace(p))
  {
  }

  /** `SecurityManager.sanitize_input`: None or "" gives "". Otherwise '<'
      and '>' are removed, the result cut to `maxLength` characters and then
      stripped of surrounding whitespace. The content clause says which
      text survives: with `p` the bracket-free text cut to `maxLength`, the
      result is the stretch of `p` left between a run of whitespace at its
      start and a run of whitespace at its end (`RemoveAllAppend` and
      `RemoveAllOne` fix `p` character by character, in order). Being
      trimmed as well, the result is the only such stretch. */
  function SanitizeInput(text: Option<string>, maxLength: int): (r: string)
    ensures '<' !in r && '>' !in r
    ensures maxLength >= 0 ==> |r| <= maxLength
    ensures Trimmed(r)
    ensures text.None? || text == Some("") ==> r == ""
    ensures text.Some? ==> exists a :: SpaceBounded(r, PyPrefix(RemoveAll(text.value, {'<', '>'}), maxLength), a)
  {
    match text
    case None => ""
    case Some(t) =>
      var p := PyPrefix(RemoveAll(t, {'<', '>'}), maxLength);
      if t == "" then
        assert RemoveAll(t, {'<', '>'}) == [] && p == [];
        assert SpaceBounded("", p, 0);
        ""
      else
        StripWindow(p);
        Strip(p)
  }

  /** The window of the content clause is unique: it starts at the first
      non-whitespace character of the cut text. */
  lemma SanitizeWindowStart(t: string, maxLength: int, a: int)
    requires SanitizeInput(Some(t), maxLength) != []
    requires SpaceBounded(SanitizeInput(Some(t), maxLength), PyPrefix(RemoveAll(t, {'<', '>'}), maxLength), a)
    ensures a == LeadingSpace(PyPrefix(RemoveAll(t, {'<', '>'}), maxLength))
  {
    var p := PyPrefix(RemoveAll(t, {'<', '>'}), maxLength);
    var r := SanitizeInput(Some(t), maxLength);
    assert p[a] == r[0];
  }

  /** Text that is already clean, short enough and trimmed is kept as it is. */
  lemma SanitizeKeepsClean(t: string, maxLength: int)
    requires '<' !in t && '>' !in t
    requires 0 <= |t| <= maxLength
    requires Trimmed(t)
    ensures SanitizeInput(Some(t), maxLength) == t
  {
    if t != "" {
      RemoveAllAbsent(t, {'<', '>'});
      StripTrimmed(t);
    }
  }

  /** Sanitising twice with the same bound is sanitising once. */
  lemma SanitizeIdempotent(text: Option<string>, maxLength: int)
    requires maxLength >= 0
    ensures SanitizeInput(Some(SanitizeInput(text, maxLength)), maxLength) == SanitizeInput(text, maxLength)
  {
    SanitizeKeepsClean(SanitizeInput(text, maxLength), maxLength);
  }

  /** Both brackets of "<<ab" go, leaving "ab". */
  lemma RemoveBracketsExample()
    ensures RemoveAll("<<ab", {'<', '>'}) == "ab"
  {
    RemoveAllAbsent("ab", {'<', '>'});
    assert "<<ab"[1..] == "<ab" && "<ab"[1..] == "ab";
  }

  /** Brackets are removed before the cut: "<<ab" cut to 2 keeps "ab". */
  lemma SanitizeRemovesBeforeCut(t: string)
    requires t == "<<ab"
    ensures SanitizeInput(Some(t), 2) == "ab"
  {
    RemoveBracketsExample();
    assert PyPrefix("ab", 2) == "ab";
    StripTrimmed("ab");
  }

  /** "ab " loses its final blank and nothing else. */
  lemma StripExample()
    ensures Strip("ab ") == "ab"
  {
    assert LeadingSpace("ab ") == 0;
    assert TrailingSpace("ab") == 0;
    assert "ab "[..2] == "ab";
    assert TrailingSpace("ab ") == 1;
  }

  /** The strip comes after the cut: "ab  c" cut to 3 is "ab ", stripped to "ab". */
  lemma SanitizeStripsAfterCut(t: string)
    requires t == "ab  c"
    ensures SanitizeInput(Some(t), 3) == "ab"
  {
    assert RemoveAll(t, {'<', '>'}) == t by {
      RemoveAllAbsent(t, {'<', '>'});
    }
    assert PyPrefix(t, 3) == "ab ";
    StripExample();
  }

  // ---------------------------------------------------------------------
  // Config.get_available_llm_providers
  // ---------------------------------------------------------------------

  /** The process environment. */
  type Env = map<string, string>

  /** `os.getenv(name)`. */
  function Getenv(env: Env, name: string): Option<string>
  {
    if name in env then Some(env[name]) else None
  }

  /** The variable is set to a non-empty value, so Python treats it as true. */
  predicate KeySet(env: Env, name: string)
  {
    name in env && env[name] != ""
  }

  /** The providers in order of preference, with the variable holding each key. */
  const LlmProviders: seq<(string, string)> :=
    [("openai", "OPENAI_API_KEY"), ("gemini", "GEMINI_API_KEY"), ("anthropic", "ANTHROPIC_API_KEY")]

  /** The providers of `candidates` whose key is set, in their given order. */
  function ConfiguredProviders(env: Env, candidates: seq<(string, string)>): seq<string>
  {
    if candidates == [] then []
    else (if KeySet(env, candidates[0].1) then [candidates[0].0] else [])
         + ConfiguredProviders(env, candidates[1..])
  }

  /** `xs` is `ys` with some elements left out and the rest in order. */
  ghost predicate IsSubsequence<T>(xs: seq<T>, ys: seq<T>)
    decreases |ys|
  {
    xs == [] || (ys != [] && (if xs[0] == ys[0] then IsSubsequence(xs[1..], ys[1..]) else IsSubsequence(xs, ys[1..])))
  }

  function Names(candidates: seq<(string, string)>): (r: seq<string>)
    ensures |r| == |candidates|
    ensures forall i :: 0 <= i < |r| ==> r[i] == candidates[i].0
  {
    if candidates == [] then [] else [candidates[0].0] + Names(candidates[1..])
  }

  /** The configured providers are those whose key is set, kept in the
      order of preference. */
  lemma {:induction false} ConfiguredProvidersSpec(env: Env, candidates: seq<(string, string)>)
    requires forall i, j :: 0 <= i < j < |candidates| ==> candidates[i].0 != candidates[j].0
    ensures IsSubsequence(ConfiguredProviders(env, candidates), Names(candidates))
    ensures forall i :: 0 <= i < |candidates| ==>
              (candidates[i].0 in ConfiguredProviders(env, candidates) <==> KeySet(env, candidates[i].1))
  {
    if candidates != [] {
      var rest := candidates[1..];
      ConfiguredProvidersSpec(env, rest);
      var r := ConfiguredProviders(env, rest);
      assert Names(candidates) == [candidates[0].0] + Names(rest);
      forall j | 0 <= j < |rest| ensures rest[j].0 != candidates[0].0 {
        assert rest[j] == candidates[j + 1];
      }
      NotConfigured(env, rest, candidates[0].0);
      var ys := Names(candidates);
      assert ys[0] == candidates[0].0 && ys[1..] == Names(rest);
      if KeySet(env, candidates[0].1) {
        var xs := [candidates[0].0] + r;
        assert ConfiguredProviders(env, candidates) == xs;
        assert xs[0] == ys[0] && xs[1..] == r;
      } else {
        assert ConfiguredProviders(env, candidates) == r;
        if r != [] {
          assert r[0] in r;
          assert r[0] != ys[0];
        }
      }
      forall i | 0 <= i < |candidates|
        ensures candidates[i].0 in ConfiguredProviders(env, candidates) <==> KeySet(env, candidates[i].1)
      {
        if i > 0 {
          assert candidates[i] == rest[i - 1];
          assert candidates[i].0 != candidates[0].0;
        }
      }
    }
  }

  /** A name among none of the candidates is not configured. */
  lemma {:induction false} NotConfigured(env: Env, candidates: seq<(string, string)>, name: string)
    requires forall j :: 0 <= j < |candidates| ==> candidates[j].0 != name
    ensures name !in ConfiguredProviders(env, candidates)
  {
    if candidates != [] {
      NotConfigured(env, candidates[1..], name);
    }
  }

  /** The filter over three candidates, written out. */
  lemma ConfiguredOfThree(env: Env, c: seq<(string, string)>)
    requires |c| == 3
    ensures ConfiguredProviders(env, c)
            == (if KeySet(env, c[0].1) then [c[0].0] else [])
               + (if KeySet(env, c[1].1) then [c[1].0] else [])
               + (if KeySet(env, c[2].1) then [c[2].0] else [])
  {
    var c1 := c[1..];
    var c2 := c1[1..];
    assert c2[1..] == [] && c1[0] == c[1] && c2[0] == c[2];
    assert ConfiguredProviders(env, c2) == (if KeySet(env, c[2].1) then [c[2].0] else []) + [];
    assert ConfiguredProviders(env, c1)
           == (if KeySet(env, c[1].1) then [c[1].0] else []) + ConfiguredProviders(env, c2);
  }

  /** `Config.get_available_llm_providers`: one conditional append per
      provider, in the fixed order. */
  method GetAvailableLlmProviders(env: Env) returns (providers: seq<string>)
    ensures providers == ConfiguredProviders(env, LlmProviders)
    ensures "openai" in providers <==> KeySet(env, "OPENAI_API_KEY")
    ensures "gemini" in providers <==> KeySet(env, "GEMINI_API_KEY")
    ensures "anthropic" in providers <==> KeySet(env, "ANTHROPIC_API_KEY")
  {
    providers := [];
    if KeySet(env, "OPENAI_API_KEY") {
      providers := providers + ["openai"];
    }
    if KeySet(env, "GEMINI_API_KEY") {
      providers := providers + ["gemini"];
    }
    if KeySet(env, "ANTHROPIC_API_KEY") {
      providers := providers + ["anthropic"];
    }
    ConfiguredOfThree(env, LlmProviders);
  }
}
