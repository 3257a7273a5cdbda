// Exhaustive string generation: the alphabet a str parameter's keyword
// selects, and every string over it whose length lies in the requested
// range (_process_str and _create_str_perms).
module ExhaustiveStr {
  import opened Wrappers
  import opened BsgGlobals

  // The character classes of the string module (in the C locale).
  const LowerCase: string := "abcdefghijklmnopqrstuvwxyz"
  const UpperCase: string := "ABCDEFGHIJKLMNOPQRSTUVWXYZ"
  const LetterChars: string := LowerCase + UpperCase
  const DigitChars: string := "0123456789"
  const HexDigitChars: string := "0123456789abcdefABCDEF"
  const Punctuation: string := "!\"#$%&'()*+,-./:;<=>?@[\\]^_`{|}~"
  const Whitespace: string := " \t\n\r\U{000B}\U{000C}"
  const Printable: string := DigitChars + LetterChars + Punctuation + Whitespace

  /** The quoted alphabet "..." of a keyword, without its quotes (keywords[0][1:-1]). */
  function Unquote(k: string): (r: string)
    requires |k| >= 1
    ensures |k| >= 2 ==> r == k[1..|k| - 1]
    ensures |k| == 1 ==> r == ""
  {
    if |k| >= 2 then k[1..|k| - 1] else ""
  }

  /**
   * The alphabet of a str parameter: printable characters without a
   * keyword, else the first of lower, upper, letters, digits, hexdigits that
   * is present, else an explicit quoted alphabet in the first keyword.
   */
  function Alphabet(keywords: seq<string>): (r: Result<string>)
    ensures keywords == [] ==> r == Success(Printable)
    ensures keywords != [] && Lower in keywords ==> r == Success(LowerCase)
    ensures keywords != [] && Lower !in keywords && Upper in keywords ==> r == Success(UpperCase)
    ensures r.Failure? ==> r.error in {"ValueError", "IndexError"}
    ensures r.Success? && keywords != [] && (forall k :: k in keywords ==> k !in [Lower, Upper, Letters, Digits, HexDigits]) ==>
      |keywords[0]| >= 1 && keywords[0][0] == '"' && keywords[0][|keywords[0]| - 1] == '"' && r.value == Unquote(keywords[0])
  {
    if keywords == [] then Success(Printable)
    else if Lower in keywords then Success(LowerCase)
    else if Upper in keywords then Success(UpperCase)
    else if Letters in keywords then Success(LetterChars)
    else if Digits in keywords then Success(DigitChars)
    else if HexDigits in keywords then Success(HexDigitChars)
    else if keywords[0] == [] then Failure("IndexError")
    else if keywords[0][0] == '"' && keywords[0][|keywords[0]| - 1] == '"' then Success(Unquote(keywords[0]))
    else Failure("ValueError")
  }

  /** An unknown keyword that is not a quoted alphabet is refused. */
  lemma AlphabetRefused(k: string)
    requires k != [] && k[0] != '"' && k !in [Lower, Upper, Letters, Digits, HexDigits]
    ensures Alphabet([k]) == Failure("ValueError")
  {
  }

  /** Every character of s is one of the domain's. */
  predicate Over(s: string, domain: string) {
    forall i :: 0 <= i < |s| ==> s[i] in domain
  }

  /**
   * The strings _create_str_perms collects at length bound maxLen: the
   * empty string at 0; above it, the shorter strings that reach minLen and
   * every shorter string extended by one domain character.
   */
  function StrPerms(maxLen: nat, minLen: int, domain: string): set<string>
  {
    if maxLen == 0 then {""}
    else
      var shorter := StrPerms(maxLen - 1, minLen, domain);
      Long(shorter, minLen) + Extended(shorter, domain)
  }

  function Long(ss: set<string>, minLen: int): set<string> {
    set a | a in ss && |a| >= minLen
  }

  /** Every string of ss extended by one character of the domain. */
  function Extended(ss: set<string>, domain: string): set<string> {
    set a, c | a in ss && c in domain :: a + [c]
  }

  /** A string is an extension exactly when its last character is in the domain and the rest in ss. */
  lemma ExtendedMember(ss: set<string>, domain: string, x: string)
    ensures x in Extended(ss, domain) <==> |x| >= 1 && x[..|x| - 1] in ss && x[|x| - 1] in domain
  {
    if |x| >= 1 && x[..|x| - 1] in ss && x[|x| - 1] in domain {
      assert x == x[..|x| - 1] + [x[|x| - 1]];
    }
    if x in Extended(ss, domain) {
      var a, c :| a in ss && c in domain && x == a + [c];
      assert x[..|x| - 1] == a;
    }
  }

  /** The least length StrPerms keeps: minLen, clamped to 0..maxLen. */
  function LeastLength(minLen: int, maxLen: nat): nat {
    if minLen <= 0 then 0 else if minLen >= maxLen then maxLen else minLen
  }

  /**
   * StrPerms gives exactly the strings over the domain whose length lies
   * between the (clamped) minimum and maxLen.
   */
  lemma {:induction false} StrPermsExactly(maxLen: nat, minLen: int, domain: string)
    ensures forall s :: s in StrPerms(maxLen, minLen, domain) <==>
      Over(s, domain) && LeastLength(minLen, maxLen) <= |s| <= maxLen
  {
    if maxLen > 0 {
      StrPermsExactly(maxLen - 1, minLen, domain);
      forall s ensures s in StrPerms(maxLen, minLen, domain) <==> Over(s, domain) && LeastLength(minLen, maxLen) <= |s| <= maxLen {
        StrPermsStep(maxLen, minLen, domain, s);
      }
    }
  }

  lemma StrPermsStep(maxLen: nat, minLen: int, domain: string, s: string)
    requires maxLen > 0
    requires forall t :: t in StrPerms(maxLen - 1, minLen, domain) <==>
      Over(t, domain) && LeastLength(minLen, maxLen - 1) <= |t| <= maxLen - 1
    ensures s in StrPerms(maxLen, minLen, domain) <==> Over(s, domain) && LeastLength(minLen, maxLen) <= |s| <= maxLen
  {
    var shorter := StrPerms(maxLen - 1, minLen, domain);
    assert StrPerms(maxLen, minLen, domain) == Long(shorter, minLen) + Extended(shorter, domain);
    assert s in Long(shorter, minLen) <==> s in shorter && |s| >= minLen;
    assert s in shorter <==> Over(s, domain) && LeastLength(minLen, maxLen - 1) <= |s| <= maxLen - 1;
    ExtendedMember(shorter, domain, s);
    if |s| >= 1 {
      var a := s[..|s| - 1];
      assert s == a + [s[|s| - 1]];
      assert Over(s, domain) <==> Over(a, domain) && s[|s| - 1] in domain;
      assert a in shorter <==> Over(a, domain) && LeastLength(minLen, maxLen - 1) <= |a| <= maxLen - 1;
    }
  }

  /** With 1 <= minLen <= maxLen: exactly the strings over the domain with length in [minLen, maxLen]. */
  lemma StrPermsRange(maxLen: nat, minLen: nat, domain: string, s: string)
    requires 1 <= maxLen && minLen <= maxLen
    ensures s in StrPerms(maxLen, minLen, domain) <==> Over(s, domain) && minLen <= |s| <= maxLen
  {
    StrPermsExactly(maxLen, minLen, domain);
  }

  /**
   * _create_str_perms. A negative length bound never reaches the base case:
   * the recursion runs out of stack.
   */
  method CreateStrPerms(maxLen: int, minLen: int, domain: string) returns (r: Result<set<string>>)
    ensures maxLen < 0 ==> r == Failure("RuntimeError")
    ensures maxLen >= 0 ==> r == Success(StrPerms(maxLen, minLen, domain))
    decreases if maxLen < 0 then 0 else maxLen
  {
    if maxLen < 0 {
      return Failure("RuntimeError");
    }
    if maxLen == 0 {
      return Success({""});
    }
    var rec := CreateStrPerms(maxLen - 1, minLen, domain);
    var shorter := rec.value;
    var allStrs := KeepLong(shorter, minLen);
    allStrs := AddExtensions(shorter, domain, allStrs);
    r := Success(allStrs);
  }

  /** The first loop of _create_str_perms: the shorter strings that reach minLen. */
  method KeepLong(shorter: set<string>, minLen: int) returns (allStrs: set<string>)
    ensures allStrs == Long(shorter, minLen)
  {
    allStrs := {};
    var rest := shorter;
    while rest != {}
      invariant rest <= shorter
      invariant allStrs == set a | a in shorter - rest && |a| >= minLen
      decreases |rest|
    {
      var astr :| astr in rest;
      if astr !in allStrs && |astr| >= minLen {
        allStrs := allStrs + {astr};
      }
      rest := rest - {astr};
    }
  }

  /** The second loop of _create_str_perms: every shorter string extended by every domain character. */
  method AddExtensions(shorter: set<string>, domain: string, init: set<string>) returns (allStrs: set<string>)
    ensures allStrs == init + Extended(shorter, domain)
  {
    allStrs := init;
    var rest := shorter;
    while rest != {}
      invariant rest <= shorter
      invariant allStrs == init + Extended(shorter - rest, domain)
      decreases |rest|
    {
      var astr :| astr in rest;
      allStrs := AddChars(astr, domain, allStrs);
      ExtendedUnion(shorter - rest, {astr}, domain);
      assert shorter - (rest - {astr}) == (shorter - rest) + {astr};
      rest := rest - {astr};
    }
    assert shorter - rest == shorter;
  }

  /** The innermost loop: one string extended by every domain character. */
  method AddChars(astr: string, domain: string, init: set<string>) returns (allStrs: set<string>)
    ensures allStrs == init + Extended({astr}, domain)
  {
    allStrs := init;
    for j := 0 to |domain|
      invariant allStrs == init + set c | c in domain[..j] :: astr + [c]
    {
      if astr + [domain[j]] !in allStrs {
        allStrs := allStrs + {astr + [domain[j]]};
      }
      assert domain[..j + 1] == domain[..j] + [domain[j]];
    }
    assert domain[..|domain|] == domain;
  }

  lemma ExtendedUnion(a: set<string>, b: set<string>, domain: string)
    ensures Extended(a + b, domain) == Extended(a, domain) + Extended(b, domain)
  {
  }
}
