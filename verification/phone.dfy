/**
 * The Safaricom M-Pesa phone-number check performed before an STK push is
 * initiated: a whole-string match of `^(?:254|\+254|0)?(7|1)(?:[0-9]){8}$`.
 *
 * `Accepts` follows the way a backtracking regular-expression engine runs that
 * pattern: the optional prefix group tries its alternatives in order and falls
 * back to skipping the group; after it come one lead character and exactly
 * eight digits, and `$` (no `m` flag) only matches at the very end of input.
 * `Pattern` is the declarative reading "prefix ++ lead ++ eight digits".
 */
module SafaricomPhone {
  import opened Options
  import opened Decimal

  /** The alternatives of the optional group `(?:254|\+254|0)`. */
  datatype Prefix = NoPrefix | Zero | CountryCode | PlusCountryCode {
    function Text(): (s: string) {
      match this
      case NoPrefix => ""
      case Zero => "0"
      case CountryCode => "254"
      case PlusCountryCode => "+254"
    }
  }

  /** The alternatives of the group in the order the engine tries them. */
  const PrefixAlternatives: seq<string> := ["254", "+254", "0"]

  /** `(7|1)`: the character after the prefix. */
  predicate IsLead(c: char) {
    c == '7' || c == '1'
  }

  /** A phone number split the way the pattern reads it. */
  datatype PhoneParts = PhoneParts(prefix: Prefix, lead: char, subscriber: string) {
    predicate Valid() {
      IsLead(lead) && |subscriber| == 8 && AllDigits(subscriber)
    }

    function Text(): (s: string) {
      prefix.Text() + [lead] + subscriber
    }
  }

  /** Declarative specification: `s` is some valid prefix, lead and digits. */
  ghost predicate Pattern(s: string) {
    exists parts: PhoneParts :: parts.Valid() && parts.Text() == s
  }

  /** `(7|1)(?:[0-9]){8}$` matched at the start of `t`, anchored at its end. */
  predicate MatchesRest(t: string) {
    |t| == 9 && IsLead(t[0]) && AllDigits(t[1..])
  }

  /**
   * The optional group followed by the rest of the pattern: each alternative
   * in turn, and after all of them the empty choice (the `?`).
   */
  predicate MatchesFrom(s: string, alternatives: seq<string>)
    decreases |alternatives|
  {
    if alternatives == [] then MatchesRest(s)
    else (alternatives[0] <= s && MatchesRest(s[|alternatives[0]|..]))
         || MatchesFrom(s, alternatives[1..])
  }

  /** `phone.match(...)` is truthy; `^` pins the match to position 0. */
  predicate Accepts(s: string) {
    MatchesFrom(s, PrefixAlternatives)
  }

  /**
   * The split the match induces, as the engine finds it: the first prefix
   * alternative after which the rest matches, else no prefix.
   */
  function Decompose(s: string): (r: Option<PhoneParts>)
    ensures r.Some? <==> Accepts(s)
    ensures r.Some? ==> r.value.Valid() && r.value.Text() == s
  {
    if "254" <= s && MatchesRest(s[3..]) then
      assert s == "254" + [s[3]] + s[4..];
      Some(PhoneParts(CountryCode, s[3], s[4..]))
    else if "+254" <= s && MatchesRest(s[4..]) then
      assert s == "+254" + [s[4]] + s[5..];
      Some(PhoneParts(PlusCountryCode, s[4], s[5..]))
    else if "0" <= s && MatchesRest(s[1..]) then
      assert s == "0" + [s[1]] + s[2..];
      Some(PhoneParts(Zero, s[1], s[2..]))
    else if MatchesRest(s) then
      assert s == [s[0]] + s[1..];
      Some(PhoneParts(NoPrefix, s[0], s[1..]))
    else
      None
  }

  /** Every well-formed split is found again from its text. */
  lemma DecomposeText(parts: PhoneParts)
    requires parts.Valid()
    ensures Decompose(parts.Text()) == Some(parts)
  {
  }

  /** The recogniser and the declarative pattern accept the same strings. */
  lemma AcceptsIffPattern(s: string)
    ensures Accepts(s) <==> Pattern(s)
  {
    if Accepts(s) {
      var parts := Decompose(s).value;
      assert parts.Valid() && parts.Text() == s;
    }
    if Pattern(s) {
      var parts: PhoneParts :| parts.Valid() && parts.Text() == s;
      DecomposeText(parts);
    }
  }

  /** Prefix, lead and digits of an accepted number are determined by it. */
  lemma UniqueDecomposition(p: PhoneParts, q: PhoneParts)
    requires p.Valid() && q.Valid()
    requires p.Text() == q.Text()
    ensures p == q
  {
    DecomposeText(p);
    DecomposeText(q);
  }

  /** The length of an accepted number is 9, 10, 12 or 13 and names its prefix. */
  lemma AcceptedLength(s: string)
    requires Accepts(s)
    ensures |s| == 9 || |s| == 10 || |s| == 12 || |s| == 13
    ensures |s| == 9 <==> Decompose(s).value.prefix == NoPrefix
    ensures |s| == 10 <==> Decompose(s).value.prefix == Zero
    ensures |s| == 12 <==> Decompose(s).value.prefix == CountryCode
    ensures |s| == 13 <==> Decompose(s).value.prefix == PlusCountryCode
  {
  }

  /** An accepted number is ASCII digits, save for one leading '+'. */
  lemma AcceptedCharacters(s: string)
    requires Accepts(s)
    ensures forall i | 0 <= i < |s| :: IsDigit(s[i]) || (i == 0 && s[i] == '+')
    ensures s[0] == '+' <==> Decompose(s).value.prefix == PlusCountryCode
  {
  }

  /** `$` without the `m` flag: a trailing line break is never accepted. */
  lemma TrailingNewlineRejected(s: string)
    ensures !Accepts(s + "\n")
  {
    var t := s + "\n";
    assert t[|t| - 1] == '\n';
    if Accepts(t) {
      AcceptedCharacters(t);
      assert false;
    }
  }

  /** Local-format numbers the service lets through, with their split. */
  lemma AcceptedLocalExamples()
    ensures Decompose("0712345678") == Some(PhoneParts(Zero, '7', "12345678"))
    ensures Decompose("0799999999") == Some(PhoneParts(Zero, '7', "99999999"))
    ensures Decompose("712345678") == Some(PhoneParts(NoPrefix, '7', "12345678"))
  {
    AcceptedExample(Zero, '7', "12345678", "0712345678");
    AcceptedExample(Zero, '7', "99999999", "0799999999");
    AcceptedExample(NoPrefix, '7', "12345678", "712345678");
  }

  /** International-format numbers the service lets through, with their split. */
  lemma AcceptedInternationalExamples()
    ensures Decompose("254712345678") == Some(PhoneParts(CountryCode, '7', "12345678"))
    ensures Decompose("+254112345678") == Some(PhoneParts(PlusCountryCode, '1', "12345678"))
  {
    AcceptedExample(CountryCode, '7', "12345678", "254712345678");
    AcceptedExample(PlusCountryCode, '1', "12345678", "+254112345678");
  }

  /** A string spelled as prefix, lead and eight digits is accepted. */
  lemma AcceptedExample(prefix: Prefix, lead: char, subscriber: string, s: string)
    requires IsLead(lead) && |subscriber| == 8 && AllDigits(subscriber)
    requires s == prefix.Text() + [lead] + subscriber
    ensures Decompose(s) == Some(PhoneParts(prefix, lead, subscriber))
  {
  }

  /** Numbers the service refuses: too short, wrong lead, one digit too many. */
  lemma RejectedExamples()
    ensures !Accepts("12345")
    ensures !Accepts("0612345678")
    ensures !Accepts("07123456789")
  {
    if Accepts("12345") {
      AcceptedLength("12345");
      assert false;
    }
    if Accepts("07123456789") {
      AcceptedLength("07123456789");
      assert false;
    }
    if Accepts("0612345678") {
      AcceptedLength("0612345678");
      assert false;
    }
  }
}
