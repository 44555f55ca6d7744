/**
 * Masking of audit-log details before they are stored: passwords, card
 * numbers, security codes, phone numbers and personal id numbers are
 * replaced by fixed masks, looking at object keys first and at bare
 * strings second, through nested arrays and objects.
 */
module Masking {
  import opened Js
  import opened Json

  const PasswordMask: string := "********"
  const CvvMask: string := "***"
  const IdMask: string := "***-****-****"

  function CardMask(digits: string): string {
    "****-****-****-" + Last(digits, 4)
  }

  function PhoneMask(digits: string): string {
    "***-****-" + Last(digits, 4)
  }

  // ---------------------------------------------------------------------
  // Key rules, on the lower-cased key
  // ---------------------------------------------------------------------

  predicate IsPasswordKey(lk: string) {
    Contains(lk, "password") || Contains(lk, "passwd")
  }

  predicate IsCardNumberKey(lk: string) {
    Contains(lk, "card") && Contains(lk, "number")
  }

  predicate IsCvvKey(lk: string) {
    Contains(lk, "cvv") || Contains(lk, "cvc") || Contains(lk, "securitycode")
  }

  predicate IsPhoneKey(lk: string) {
    Contains(lk, "phone") || Contains(lk, "tel")
  }

  predicate IsPersonalIdKey(lk: string) {
    Contains(lk, "ssn") || Contains(lk, "mynumber") || Contains(lk, "personalid")
  }

  /** `/^\d{13,19}$/` applied to the digits of a string. */
  predicate CardDigitCount(v: string) {
    13 <= |Digits(v)| <= 19
  }

  // ---------------------------------------------------------------------
  // The bare-string rule: /(\d{4}[- ]?){3}\d{4}/ somewhere in the string
  // ---------------------------------------------------------------------

  predicate FourDigitsAt(s: string, i: nat) {
    i + 4 <= |s| && IsDigit(s[i]) && IsDigit(s[i + 1]) && IsDigit(s[i + 2]) && IsDigit(s[i + 3])
  }

  /**
   * `groups` more groups of four digits, each optionally followed by '-' or
   * ' ', and then four final digits, starting at `i`.
   */
  predicate CardRunFrom(s: string, i: nat, groups: nat)
    decreases groups
  {
    if groups == 0 then FourDigitsAt(s, i)
    else
      FourDigitsAt(s, i) &&
      (CardRunFrom(s, i + 4, groups - 1) ||
       (i + 4 < |s| && (s[i + 4] == '-' || s[i + 4] == ' ') && CardRunFrom(s, i + 5, groups - 1)))
  }

  /** `cardPattern.test(s)`. */
  predicate HasCardRun(s: string) {
    exists i: nat :: i <= |s| && CardRunFrom(s, i, 3)
  }

  predicate HasBcryptPrefix(s: string) {
    StartsWith(s, "$2a$") || StartsWith(s, "$2b$") || StartsWith(s, "$2y$")
  }

  /** The rule for a bare string: a card-like run with 13 to 19 digits, then a bcrypt hash, else unchanged. */
  function MaskString(s: string): (r: string)
    ensures HasCardRun(s) && CardDigitCount(s) ==> r == CardMask(Digits(s))
    ensures !(HasCardRun(s) && CardDigitCount(s)) && HasBcryptPrefix(s) ==> r == PasswordMask
    ensures !(HasCardRun(s) && CardDigitCount(s)) && !HasBcryptPrefix(s) ==> r == s
  {
    if HasCardRun(s) && CardDigitCount(s) then CardMask(Digits(s))
    else if HasBcryptPrefix(s) then PasswordMask
    else s
  }

  // ---------------------------------------------------------------------
  // maskSensitiveData
  // ---------------------------------------------------------------------

  /**
   * The value stored for one object entry, trying the key rules in source
   * order; `None` means that no rule fired and the value is masked
   * recursively.
   */
  function EntryRule(key: string, value: Json): (r: Option<Json>)
    ensures IsPasswordKey(Lower(key)) ==> r == Some(Str(PasswordMask))
    ensures r.Some? ==> r.value.Str?
    ensures !value.Str? ==> (r.Some? <==> IsPasswordKey(Lower(key)) || IsCvvKey(Lower(key)))
  {
    var lk := Lower(key);
    if IsPasswordKey(lk) then Some(Str(PasswordMask))
    else if IsCardNumberKey(lk) && value.Str? && CardDigitCount(value.s) then Some(Str(CardMask(Digits(value.s))))
    else if IsCvvKey(lk) then Some(Str(CvvMask))
    else if IsPhoneKey(lk) && value.Str? && |Digits(value.s)| >= 4 then Some(Str(PhoneMask(Digits(value.s))))
    else if IsPersonalIdKey(lk) && value.Str? then Some(Str(IdMask))
    else None
  }

  /** `maskSensitiveData`. */
  function Mask(j: Json): (r: Json)
    decreases j, 1
    ensures j.Null? || j.Undefined? ==> r == j
    ensures j.Bool? || j.Num? ==> r == j
    ensures j.Str? ==> r == Str(MaskString(j.s))
    ensures j.Arr? <==> r.Arr?
    ensures j.Arr? ==> |r.items| == |j.items| && forall i :: 0 <= i < |j.items| ==> r.items[i] == Mask(j.items[i])
    ensures j.Obj? <==> r.Obj?
    ensures j.Obj? ==> Keys(r.entries) == Keys(j.entries)
  {
    match j
    case Undefined => j
    case Null => j
    case Bool(_) => j
    case Num(_) => j
    case Str(s) => Str(MaskString(s))
    case Arr(items) => Arr(MaskItems(items))
    case Obj(entries) => Obj(MaskEntries(entries))
  }

  function MaskItems(items: seq<Json>): (r: seq<Json>)
    decreases items, 0
    ensures |r| == |items|
    ensures forall i :: 0 <= i < |items| ==> r[i] == Mask(items[i])
  {
    if |items| == 0 then []
    else [Mask(items[0])] + MaskItems(items[1..])
  }

  function MaskEntries(entries: seq<Entry>): (r: seq<Entry>)
    decreases entries, 0
    ensures |r| == |entries|
    ensures forall i :: 0 <= i < |entries| ==> r[i].key == entries[i].key
    ensures forall i :: 0 <= i < |entries| ==>
              r[i].value == (match EntryRule(entries[i].key, entries[i].value)
                             case Some(m) => m
                             case None => Mask(entries[i].value))
  {
    if |entries| == 0 then []
    else
      var e := entries[0];
      var first := match EntryRule(e.key, e.value) case Some(m) => m case None => Mask(e.value);
      [Entry(e.key, first)] + MaskEntries(entries[1..])
  }

  /** `maskAuditLogDetails`: falsy details are returned as they are, the rest masked. */
  function MaskAuditLogDetails(details: Json): (r: Json)
    ensures details.Undefined? ==> r.Undefined?
    ensures details.Obj? ==> r == Mask(details)
  {
    if !Truthy(details) then details else Mask(details)
  }

  // ---------------------------------------------------------------------
  // Properties
  // ---------------------------------------------------------------------

  /** At every depth, each password-like key holds the password mask. */
  predicate PasswordsMasked(j: Json)
    decreases j, 1
  {
    match j
    case Arr(items) => ItemsPasswordsMasked(items)
    case Obj(entries) => EntriesPasswordsMasked(entries)
    case _ => true
  }

  predicate ItemsPasswordsMasked(items: seq<Json>)
    decreases items, 0
  {
    |items| > 0 ==> PasswordsMasked(items[0]) && ItemsPasswordsMasked(items[1..])
  }

  predicate EntriesPasswordsMasked(entries: seq<Entry>)
    decreases entries, 0
  {
    |entries| > 0 ==>
      (IsPasswordKey(Lower(entries[0].key)) ==> entries[0].value == Str(PasswordMask)) &&
      PasswordsMasked(entries[0].value) && EntriesPasswordsMasked(entries[1..])
  }

  /** After masking, no password-like key anywhere in the value keeps its original value. */
  lemma {:induction false} MaskHidesPasswords(j: Json)
    decreases j, 1
    ensures PasswordsMasked(Mask(j))
  {
    match j
    case Arr(items) => MaskItemsHidePasswords(items);
    case Obj(entries) => MaskEntriesHidePasswords(entries);
    case _ =>
  }

  lemma {:induction false} MaskItemsHidePasswords(items: seq<Json>)
    decreases items, 0
    ensures ItemsPasswordsMasked(MaskItems(items))
  {
    if |items| > 0 {
      MaskHidesPasswords(items[0]);
      MaskItemsHidePasswords(items[1..]);
      assert MaskItems(items)[1..] == MaskItems(items[1..]);
    }
  }

  lemma {:induction false} MaskEntriesHidePasswords(entries: seq<Entry>)
    decreases entries, 0
    ensures EntriesPasswordsMasked(MaskEntries(entries))
  {
    if |entries| > 0 {
      var e := entries[0];
      if EntryRule(e.key, e.value).None? {
        MaskHidesPasswords(e.value);
      }
      MaskEntriesHidePasswords(entries[1..]);
      assert MaskEntries(entries)[1..] == MaskEntries(entries[1..]);
    }
  }

  /** The falsy-details short cut changes nothing: details are always masked the same way. */
  lemma AuditLogDetailsAlwaysMasked(details: Json)
    ensures MaskAuditLogDetails(details) == Mask(details)
  {
    if details.Str? && details.s == "" {
      assert !HasCardRun("");
      assert !HasBcryptPrefix("");
    }
  }

  /** A key without the first letter of a keyword cannot contain that keyword. */
  lemma NotContainsWithoutFirst(lk: string, word: string)
    requires |word| > 0 && word[0] !in lk
    ensures !Contains(lk, word)
  {
  }

  /** A key that merely contains "password" is masked whatever its value. */
  lemma PasswordKeyExample()
    ensures EntryRule("newPassword", Num(1.0)) == Some(Str(PasswordMask))
  {
    assert LowerChar('P') == 'p';
    assert Lower("newPassword") == "newpassword";
    assert StartsWith("newpassword"[3..], "password");
  }

  /** A security-code key is masked. */
  lemma CvvKeyExample()
    ensures EntryRule("cvv", Str("123")) == Some(Str(CvvMask))
  {
    assert Lower("cvv") == "cvv";
    assert StartsWith("cvv"[0..], "cvv");
    NotContainsWithoutFirst("cvv", "password");
    NotContainsWithoutFirst("cvv", "passwd");
  }

  /** A personal-id key holding a number is not masked by the key rule: that rule wants a string. */
  lemma NumericIdExample()
    ensures EntryRule("ssn", Num(1.0)) == None
  {
    assert Lower("ssn") == "ssn";
    NotContainsWithoutFirst("ssn", "password");
    NotContainsWithoutFirst("ssn", "passwd");
    NotContainsWithoutFirst("ssn", "cvv");
    NotContainsWithoutFirst("ssn", "cvc");
  }

  /** A 16-digit card number written with hyphens is one the bare-string rule masks. */
  lemma CardRunExample()
    ensures HasCardRun("1234-5678-9012-3456")
  {
    var s := "1234-5678-9012-3456";
    assert FourDigitsAt(s, 15) && FourDigitsAt(s, 10) && FourDigitsAt(s, 5) && FourDigitsAt(s, 0);
    assert s[4] == '-' && s[9] == '-' && s[14] == '-';
    assert CardRunFrom(s, 15, 0);
    assert CardRunFrom(s, 10, 1);
    assert CardRunFrom(s, 5, 2);
    assert CardRunFrom(s, 0, 3);
  }

  /** Its digits, the last four of which the mask keeps. */
  lemma CardDigitsExample()
    ensures Digits("1234-5678-9012-3456") == "1234567890123456"
  {
    var a, b, c, d := "1234", "5678", "9012", "3456";
    FourDigitGroups(a, b, c, d);
    DigitsOfGroups(a, b, c, d, '-');
    CardLiterals(a, b, c, d);
  }

  lemma FourDigitGroups(a: string, b: string, c: string, d: string)
    requires a == "1234" && b == "5678" && c == "9012" && d == "3456"
    ensures AllDigits(a) && AllDigits(b) && AllDigits(c) && AllDigits(d)
  {
  }

  lemma CardLiterals(a: string, b: string, c: string, d: string)
    requires a == "1234" && b == "5678" && c == "9012" && d == "3456"
    ensures a + (['-'] + b) + (['-'] + c) + (['-'] + d) == "1234-5678-9012-3456"
    ensures a + b + c + d == "1234567890123456"
  {
  }

  /** Four digit groups joined by one separator keep exactly their digits. */
  lemma {:induction false} DigitsOfGroups(a: string, b: string, c: string, d: string, sep: char)
    requires AllDigits(a) && AllDigits(b) && AllDigits(c) && AllDigits(d) && !IsDigit(sep)
    ensures Digits(a + ([sep] + b) + ([sep] + c) + ([sep] + d)) == a + b + c + d
  {
    DigitsSkip(sep, b);
    DigitsSkip(sep, c);
    DigitsSkip(sep, d);
    DigitsAppend(a, [sep] + b);
    DigitsAppend(a + ([sep] + b), [sep] + c);
    DigitsAppend(a + ([sep] + b) + ([sep] + c), [sep] + d);
  }

  lemma DigitsSkip(c: char, s: string)
    requires !IsDigit(c)
    ensures Digits([c] + s) == Digits(s)
  {
    assert ([c] + s)[1..] == s;
  }
}
