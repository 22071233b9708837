/** The two keys a promotion derives from its owner approval: the submit key, the idempotency identity
    of the Executive root, and the trusted-root causation key
    (internal/campaign/promotion_submit_key.go). */
module SubmitKey {
  import opened Prelude
  import opened Decimal
  import opened Text

  const SUBMIT_PREFIX := "campaign-promotion:"
  const CAUSATION_PREFIX := "campaign-promotion-"
  const HASH_PREFIX_LENGTH := 16
  const MAX_KEY_BYTES := 200

  predicate HexPrefix(hash: string) {
    |hash| >= HASH_PREFIX_LENGTH && forall i | 0 <= i < HASH_PREFIX_LENGTH :: LowerHex(hash[i])
  }

  /** The scan of the hash prefix, character by character. */
  method ValidateApprovalAndHash(approval: int64, hash: string) returns (r: Option<string>)
    ensures r == if approval > 0 && HexPrefix(hash) then Some(hash[..HASH_PREFIX_LENGTH]) else None
  {
    if approval <= 0 || |hash| < HASH_PREFIX_LENGTH { return None; }
    var prefix := hash[..HASH_PREFIX_LENGTH];
    var i := 0;
    while i < |prefix|
      invariant 0 <= i <= |prefix|
      invariant forall k | 0 <= k < i :: LowerHex(hash[k])
    {
      if !LowerHex(prefix[i]) { return None; }
      i := i + 1;
    }
    r := Some(prefix);
  }

  function Key(prefix: string, separator: char, approval: int64, hash: string): Option<string> {
    if approval <= 0 || !HexPrefix(hash) then None
    else
      var key := prefix + Itoa(approval) + [separator] + hash[..HASH_PREFIX_LENGTH];
      if |key| > MAX_KEY_BYTES then None else Some(key)
  }

  /** campaign-promotion:<approval>:<first sixteen of the hash> */
  function Submit(approval: int64, hash: string): Option<string> {
    Key(SUBMIT_PREFIX, ':', approval, hash)
  }

  /** campaign-promotion-<approval>-<first sixteen of the hash>, refused if it holds a colon */
  function Causation(approval: int64, hash: string): Option<string> {
    var key := Key(CAUSATION_PREFIX, '-', approval, hash);
    if key.Some? && ':' in key.value then None else key
  }

  /** Deriving either key fails exactly for a non-positive approval or a hash whose first sixteen
      characters are not lower-case hexadecimal: the length and colon tests never refuse. */
  lemma KeysDerived(approval: int64, hash: string)
    ensures Submit(approval, hash).Some? <==> approval > 0 && HexPrefix(hash)
    ensures Causation(approval, hash).Some? <==> approval > 0 && HexPrefix(hash)
    ensures Submit(approval, hash).Some? ==>
              && Submit(approval, hash).value == "campaign-promotion:" + Itoa(approval) + ":" + hash[..16]
              && Causation(approval, hash).value == "campaign-promotion-" + Itoa(approval) + "-" + hash[..16]
  {
    if approval > 0 && HexPrefix(hash) {
      AtMostNineteen(approval);
      assert ':' !in Digits(approval) && ':' !in hash[..HASH_PREFIX_LENGTH] && ':' !in CAUSATION_PREFIX;
    }
  }

  lemma KeyIdentifies(prefix: string, separator: char, a: int64, h: string, b: int64, g: string)
    requires !IsDigit(separator)
    requires Key(prefix, separator, a, h).Some? && Key(prefix, separator, a, h) == Key(prefix, separator, b, g)
    ensures a == b && h[..HASH_PREFIX_LENGTH] == g[..HASH_PREFIX_LENGTH]
  {
    var ta, tb := h[..HASH_PREFIX_LENGTH], g[..HASH_PREFIX_LENGTH];
    var key := Key(prefix, separator, a, h).value;
    assert key[|prefix|..] == Itoa(a) + [separator] + ta;
    assert key[|prefix|..] == Itoa(b) + [separator] + tb;
    FirstMark(separator, Itoa(a), Itoa(b), ta, tb);
    PrintsApart(a, b);
  }

  /** Equal submit keys name the same approval, and so do equal causation keys. */
  lemma SubmitKeyIdentifiesApproval(a: int64, h: string, b: int64, g: string)
    requires (Submit(a, h).Some? && Submit(a, h) == Submit(b, g))
             || (Causation(a, h).Some? && Causation(a, h) == Causation(b, g))
    ensures a == b
  {
    if Submit(a, h).Some? && Submit(a, h) == Submit(b, g) {
      KeyIdentifies(SUBMIT_PREFIX, ':', a, h, b, g);
    } else {
      KeyIdentifies(CAUSATION_PREFIX, '-', a, h, b, g);
    }
  }

  // ---------------------------------------------------------------------------------------------
  // The causation key is one the trusted-root check accepts

  predicate Alphanumeric(c: char) { 'a' <= c <= 'z' || 'A' <= c <= 'Z' || '0' <= c <= '9' }

  predicate Separator(c: char) { c == '.' || c == '_' || c == '/' || c == '-' }

  /** The automaton of ^[a-zA-Z0-9]+(?:[._/-][a-zA-Z0-9]+)*$; it accepts after an alphanumeric. */
  predicate Accepts(s: string, afterAlphanumeric: bool) {
    if s == "" then afterAlphanumeric
    else if Alphanumeric(s[0]) then Accepts(s[1..], true)
    else Separator(s[0]) && afterAlphanumeric && Accepts(s[1..], false)
  }

  const LOWER := "abcdefghijklmnopqrstuvwxyz"
  const UPPER := "ABCDEFGHIJKLMNOPQRSTUVWXYZ"
  const DIGITS := "0123456789"
  const SEPARATORS := "._/-"

  lemma LowerCase(c: char)
    ensures 'a' <= c <= 'z' <==> c in LOWER
  {
    if 'a' <= c <= 'z' { assert LOWER[c as int - 'a' as int] == c; }
  }

  lemma UpperCase(c: char)
    ensures 'A' <= c <= 'Z' <==> c in UPPER
  {
    if 'A' <= c <= 'Z' { assert UPPER[c as int - 'A' as int] == c; }
  }

  lemma DecimalDigits(c: char)
    ensures '0' <= c <= '9' <==> c in DIGITS
  {
    if '0' <= c <= '9' { assert DIGITS[c as int - '0' as int] == c; }
  }

  predicate LetterOrDigit(c: char) { c in LOWER || c in UPPER || c in DIGITS }

  lemma Characters(c: char)
    ensures Alphanumeric(c) <==> LetterOrDigit(c)
    ensures Separator(c) <==> c in SEPARATORS
  {
    LowerCase(c);
    UpperCase(c);
    DecimalDigits(c);
    assert SEPARATORS[0] == '.' && SEPARATORS[1] == '_' && SEPARATORS[2] == '/' && SEPARATORS[3] == '-';
  }

  /** Alphanumerics with single separators between them: none first, last, or next to another. */
  predicate Segmented(s: string, afterAlphanumeric: bool) {
    && (forall i | 0 <= i < |s| :: LetterOrDigit(s[i]) || s[i] in SEPARATORS)
    && (if s == "" then afterAlphanumeric else LetterOrDigit(s[|s| - 1]))
    && (s != "" && !afterAlphanumeric ==> LetterOrDigit(s[0]))
    && forall i | 0 <= i < |s| - 1 :: LetterOrDigit(s[i]) || LetterOrDigit(s[i + 1])
  }

  lemma {:induction false} AcceptsExact(s: string, afterAlphanumeric: bool)
    ensures Accepts(s, afterAlphanumeric) <==> Segmented(s, afterAlphanumeric)
  {
    if s != "" {
      var rest := s[1..];
      Characters(s[0]);
      AcceptsExact(rest, Alphanumeric(s[0]));
      SegmentedFirst(s, afterAlphanumeric);
    }
  }

  lemma SegmentedFirst(s: string, afterAlphanumeric: bool)
    requires s != ""
    ensures Segmented(s, afterAlphanumeric) <==>
            && (LetterOrDigit(s[0]) || (s[0] in SEPARATORS && afterAlphanumeric))
            && Segmented(s[1..], LetterOrDigit(s[0]))
  {
    var rest := s[1..];
    assert forall i | 0 <= i < |rest| :: rest[i] == s[i + 1];
    if Segmented(rest, LetterOrDigit(s[0])) {
      forall i | 0 <= i < |s| ensures i > 0 ==> s[i] == rest[i - 1] {}
      forall i | 0 <= i < |s| - 1 && i > 0 ensures LetterOrDigit(s[i]) || LetterOrDigit(s[i + 1]) {
        assert LetterOrDigit(rest[i - 1]) || LetterOrDigit(rest[i]);
      }
    }
    if Segmented(s, afterAlphanumeric) {
      forall i | 0 <= i < |rest| - 1 ensures LetterOrDigit(rest[i]) || LetterOrDigit(rest[i + 1]) {
        assert LetterOrDigit(s[i + 1]) || LetterOrDigit(s[i + 2]);
      }
    }
  }

  lemma {:induction false} SegmentAccepted(p: string, rest: string, after: bool)
    requires |p| > 0 && forall i | 0 <= i < |p| :: Alphanumeric(p[i])
    ensures Accepts(p + rest, after) == Accepts(rest, true)
  {
    assert (p + rest)[1..] == p[1..] + rest;
    if |p| > 1 { SegmentAccepted(p[1..], rest, true); } else { assert p[1..] + rest == rest; }
  }

  lemma Joined(p: string, rest: string)
    requires |p| > 0 && (forall i | 0 <= i < |p| :: Alphanumeric(p[i])) && Accepts(rest, false)
    ensures Accepts(p + ("-" + rest), false)
  {
    SegmentAccepted(p, "-" + rest, false);
    assert ("-" + rest)[1..] == rest;
  }

  lemma Regrouped(id: string, tail: string)
    ensures CAUSATION_PREFIX + id + ['-'] + tail == "campaign" + ("-" + ("promotion" + ("-" + (id + ("-" + tail)))))
  {
    assert CAUSATION_PREFIX == "campaign" + ("-" + ("promotion" + "-"));
  }

  /** Every causation key satisfies the trusted-root syntax, and "owner:" plus the key fits in the
      two hundred bytes the check allows. */
  lemma CausationIsTrustedRoot(approval: int64, hash: string)
    requires Causation(approval, hash).Some?
    ensures Accepts(Causation(approval, hash).value, false)
    ensures |"owner:" + Causation(approval, hash).value| <= 200
  {
    var id, tail := Itoa(approval), hash[..HASH_PREFIX_LENGTH];
    AtMostNineteen(approval);
    SegmentAccepted(tail, "", false);
    assert tail + "" == tail;
    Joined(id, tail);
    Joined("promotion", id + ("-" + tail));
    Joined("campaign", "promotion" + ("-" + (id + ("-" + tail))));
    Regrouped(id, tail);
  }
}
