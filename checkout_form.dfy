/** The checkout form's five field rules (`validateFormData`), with the
    three regular expressions of the source written out as predicates over
    strings, and JavaScript's `trim` and `split(/\s+/)`. */
module CheckoutForm {
  import opened Decimal

  /** JavaScript's `\s`, which is also the set of characters `trim` strips. */
  predicate IsSpace(c: char) {
    var n := c as int;
    (9 <= n <= 13) || n == 32 || n == 0xA0 || n == 0x1680 || (0x2000 <= n <= 0x200A)
    || n == 0x2028 || n == 0x2029 || n == 0x202F || n == 0x205F || n == 0x3000 || n == 0xFEFF
  }

  /** `s.trimStart()`: the suffix left after the leading whitespace. */
  function TrimStart(s: string): (r: string)
    ensures |r| <= |s| && r == s[|s| - |r|..]
    ensures forall i :: 0 <= i < |s| - |r| ==> IsSpace(s[i])
    ensures r != [] ==> !IsSpace(r[0])
  {
    if s != [] && IsSpace(s[0]) then TrimStart(s[1..]) else s
  }

  /** `s.trimEnd()`: the prefix left before the trailing whitespace. */
  function TrimEnd(s: string): (r: string)
    ensures |r| <= |s| && r == s[..|r|]
    ensures forall i :: |r| <= i < |s| ==> IsSpace(s[i])
    ensures r != [] ==> !IsSpace(r[|r| - 1])
  {
    if s != [] && IsSpace(s[|s| - 1]) then TrimEnd(s[..|s| - 1]) else s
  }

  /** `s.trim()`. */
  function Trim(s: string): string {
    TrimEnd(TrimStart(s))
  }

  /** The whitespace runs of `s` that start after `prevSpace` (whether the
      character before `s` was whitespace). */
  function RunsFrom(s: string, prevSpace: bool): nat {
    if s == [] then 0
    else (if IsSpace(s[0]) && !prevSpace then 1 else 0) + RunsFrom(s[1..], IsSpace(s[0]))
  }

  /** `t.split(/\s+/).length`: the pattern matches each maximal run of
      whitespace, and splitting at k matches gives k + 1 pieces. */
  function SplitLength(t: string): nat {
    RunsFrom(t, false) + 1
  }

  /** Name: present, and at least three pieces after trimming and splitting
      at whitespace. */
  predicate NameOk(name: string) {
    name != "" && SplitLength(Trim(name)) >= 3
  }

  // ---------------------------------------------------------------------
  // The name rule counts words

  /** The words (maximal runs of non-whitespace) of `s` that start in `s`
      after `prevSpace`. */
  function WordsFrom(s: string, prevSpace: bool): nat {
    if s == [] then 0
    else (if !IsSpace(s[0]) && prevSpace then 1 else 0) + WordsFrom(s[1..], IsSpace(s[0]))
  }

  /** The number of words in `s`. */
  function WordCount(s: string): nat {
    WordsFrom(s, true)
  }

  function EndsInSpace(s: string, prevSpace: bool): bool {
    if s == [] then prevSpace else IsSpace(s[|s| - 1])
  }

  function Ind(b: bool): int {
    if b then 1 else 0
  }

  /** Words and runs alternate: their counts differ by whether the text
      ends, and whether it is entered, on whitespace. */
  lemma {:induction false} WordsMinusRuns(s: string, p: bool)
    ensures WordsFrom(s, p) - RunsFrom(s, p) == Ind(p) - Ind(EndsInSpace(s, p))
  {
    if s != [] {
      WordsMinusRuns(s[1..], IsSpace(s[0]));
      assert EndsInSpace(s[1..], IsSpace(s[0])) == EndsInSpace(s, p);
    }
  }

  lemma {:induction false} CountsAppend(a: string, b: string, p: bool)
    ensures WordsFrom(a + b, p) == WordsFrom(a, p) + WordsFrom(b, EndsInSpace(a, p))
  {
    if a == [] {
      assert a + b == b;
    } else {
      assert (a + b)[1..] == a[1..] + b;
      CountsAppend(a[1..], b, IsSpace(a[0]));
      assert EndsInSpace(a[1..], IsSpace(a[0])) == EndsInSpace(a, p);
    }
  }

  lemma {:induction false} NoWordsInSpaces(z: string, p: bool)
    requires forall i :: 0 <= i < |z| ==> IsSpace(z[i])
    ensures WordsFrom(z, p) == 0
    ensures EndsInSpace(z, p) == (p || z != [])
  {
    if z != [] {
      NoWordsInSpaces(z[1..], IsSpace(z[0]));
    }
  }

  lemma LeadingSpacesNoWords(lead: string, u: string)
    requires forall i :: 0 <= i < |lead| ==> IsSpace(lead[i])
    ensures WordsFrom(lead + u, true) == WordsFrom(u, true)
  {
    CountsAppend(lead, u, true);
    NoWordsInSpaces(lead, true);
  }

  lemma TrailingSpacesNoWords(t: string, trail: string)
    requires forall i :: 0 <= i < |trail| ==> IsSpace(trail[i])
    ensures WordsFrom(t + trail, true) == WordsFrom(t, true)
  {
    CountsAppend(t, trail, true);
    NoWordsInSpaces(trail, EndsInSpace(t, true));
  }

  lemma TrimStartSplit(s: string) returns (lead: string)
    ensures s == lead + TrimStart(s)
    ensures forall i :: 0 <= i < |lead| ==> IsSpace(lead[i])
  {
    lead := s[..|s| - |TrimStart(s)|];
  }

  lemma TrimEndSplit(u: string) returns (trail: string)
    ensures u == TrimEnd(u) + trail
    ensures forall i :: 0 <= i < |trail| ==> IsSpace(trail[i])
  {
    var t := TrimEnd(u);
    trail := u[|t|..];
    assert forall i :: 0 <= i < |trail| ==> trail[i] == u[|t| + i];
  }

  /** Trimming does not change the number of words. */
  lemma TrimKeepsWords(s: string)
    ensures WordCount(Trim(s)) == WordCount(s)
  {
    var lead := TrimStartSplit(s);
    LeadingSpacesNoWords(lead, TrimStart(s));
    var trail := TrimEndSplit(TrimStart(s));
    TrailingSpacesNoWords(Trim(s), trail);
  }

  /** The name rule holds exactly when the name has at least three words. */
  lemma NameOkIffThreeWords(name: string)
    ensures NameOk(name) <==> WordCount(name) >= 3
  {
    var t := Trim(name);
    TrimKeepsWords(name);
    if t != [] {
      WordsMinusRuns(t, true);
      assert RunsFrom(t, false) == RunsFrom(t, true);
    } else {
      assert WordCount(t) == 0;
    }
    if name == "" {
      assert WordCount(name) == 0;
    }
  }

  // ---------------------------------------------------------------------
  // Phone: /^\+7\s?\(?\d{3}\)?\s?\d{3}[\s-]?\d{2}[\s-]?\d{2}$/

  /** The character classes of the pattern's optional elements. */
  datatype CharClass = Whitespace | Just(c: char) | WhitespaceOrDash

  predicate InClass(c: char, k: CharClass) {
    match k
    case Whitespace => IsSpace(c)
    case Just(x) => c == x
    case WhitespaceOrDash => IsSpace(c) || c == '-'
  }

  /** An optional character of class k at position i: the position after it. */
  function Opt(s: string, i: nat, k: CharClass): (j: nat)
    requires i <= |s|
    ensures i <= j <= i + 1 && j <= |s|
  {
    if i < |s| && InClass(s[i], k) then i + 1 else i
  }

  /** n decimal digits at position i. */
  predicate DigitsAt(s: string, i: nat, n: nat) {
    i + n <= |s| && forall j :: i <= j < i + n ==> IsDigit(s[j])
  }

  /** The phone pattern. Each optional element's class excludes everything
      that may follow it, so taking an optional character whenever it is
      there matches exactly what the regular expression matches. The
      pattern is read piece by piece: "+7", an optional space, then the
      area code. */
  predicate PhonePattern(s: string) {
    |s| >= 2 && s[0] == '+' && s[1] == '7' && AreaCodeAt(s, Opt(s, 2, Whitespace))
  }

  /** An optional '(', three digits, an optional ')', then the number. */
  predicate AreaCodeAt(s: string, i: nat)
    requires i <= |s|
  {
    var b := Opt(s, i, Just('('));
    DigitsAt(s, b, 3) && NumberAt(s, Opt(s, b + 3, Just(')')))
  }

  /** An optional space, three digits, an optional separator, then two pairs. */
  predicate NumberAt(s: string, i: nat)
    requires i <= |s|
  {
    var d := Opt(s, i, Whitespace);
    DigitsAt(s, d, 3) && PairsAt(s, Opt(s, d + 3, WhitespaceOrDash))
  }

  /** Two digits, an optional separator, two digits, and the end. */
  predicate PairsAt(s: string, i: nat)
    requires i <= |s|
  {
    DigitsAt(s, i, 2) && var f := Opt(s, i + 2, WhitespaceOrDash); DigitsAt(s, f, 2) && f + 2 == |s|
  }

  /** Phone: present, eleven digits, and the pattern. */
  predicate PhoneOk(phone: string) {
    phone != "" && |DigitsOnly(phone)| == 11 && PhonePattern(phone)
  }

  /** The number of digits in s[i..], counted by position. */
  function DigitCount(s: string, i: nat): nat
    decreases |s| - i
  {
    if i >= |s| then 0 else (if IsDigit(s[i]) then 1 else 0) + DigitCount(s, i + 1)
  }

  lemma {:induction false} DigitCountIsDigitsOnly(s: string, i: nat)
    requires i <= |s|
    ensures |DigitsOnly(s[i..])| == DigitCount(s, i)
    decreases |s| - i
  {
    if i < |s| {
      assert s[i..][1..] == s[i + 1..];
      DigitCountIsDigitsOnly(s, i + 1);
    }
  }

  /** A run of n digits contributes n digits. */
  lemma {:induction false} RunStep(s: string, i: nat, n: nat)
    requires DigitsAt(s, i, n)
    ensures DigitCount(s, i) == n + DigitCount(s, i + n)
    decreases n
  {
    if n > 0 {
      RunStep(s, i + 1, n - 1);
    }
  }

  /** An optional separator contributes no digit. */
  lemma OptStep(s: string, i: nat, k: CharClass)
    requires i <= |s|
    requires k.Just? ==> !IsDigit(k.c)
    ensures DigitCount(s, i) == DigitCount(s, Opt(s, i, k))
  {
  }

  lemma PairsCount(s: string, i: nat)
    requires i <= |s| && PairsAt(s, i)
    ensures DigitCount(s, i) == 4
  {
    var f := Opt(s, i + 2, WhitespaceOrDash);
    RunStep(s, i, 2);
    OptStep(s, i + 2, WhitespaceOrDash);
    RunStep(s, f, 2);
  }

  lemma NumberCount(s: string, i: nat)
    requires i <= |s| && NumberAt(s, i)
    ensures DigitCount(s, i) == 7
  {
    var d := Opt(s, i, Whitespace);
    OptStep(s, i, Whitespace);
    RunStep(s, d, 3);
    OptStep(s, d + 3, WhitespaceOrDash);
    PairsCount(s, Opt(s, d + 3, WhitespaceOrDash));
  }

  lemma AreaCodeCount(s: string, i: nat)
    requires i <= |s| && AreaCodeAt(s, i)
    ensures DigitCount(s, i) == 10
  {
    var b := Opt(s, i, Just('('));
    OptStep(s, i, Just('('));
    RunStep(s, b, 3);
    OptStep(s, b + 3, Just(')'));
    NumberCount(s, Opt(s, b + 3, Just(')')));
  }

  /** A phone that matches the pattern has exactly eleven digits: the 7 of
      the country code and the ten of the number. */
  lemma PhonePatternHasElevenDigits(s: string)
    requires PhonePattern(s)
    ensures |DigitsOnly(s)| == 11
  {
    assert DigitCount(s, 0) == 1 + DigitCount(s, 2) by {
      assert DigitCount(s, 1) == 1 + DigitCount(s, 2);
    }
    OptStep(s, 2, Whitespace);
    AreaCodeCount(s, Opt(s, 2, Whitespace));
    DigitCountIsDigitsOnly(s, 0);
    assert s[0..] == s;
  }

  /** So the phone rule's digit count never rejects a phone the pattern accepts. */
  lemma PhoneOkIffPattern(s: string)
    ensures PhoneOk(s) <==> PhonePattern(s)
  {
    if PhonePattern(s) {
      PhonePatternHasElevenDigits(s);
    }
  }

  // ---------------------------------------------------------------------
  // Zip, address, e-mail

  /** Zip: present and /^\d{6}$/. */
  predicate ZipOk(zip: string) {
    zip != "" && |zip| == 6 && AllDigits(zip)
  }

  /** Address: present and at least ten characters once trimmed. */
  predicate AddressOk(address: string) {
    address != "" && CodeUnits(Trim(address)) >= 10
  }

  /** A string's `length`: its UTF-16 code units, two for a character
      beyond U+FFFF and one for any other. */
  function CodeUnits(s: string): (n: nat)
    ensures |s| <= n <= 2 * |s|
    ensures (forall i :: 0 <= i < |s| ==> s[i] as int < 0x10000) ==> n == |s|
    ensures (forall i :: 0 <= i < |s| ==> s[i] as int >= 0x10000) ==> n == 2 * |s|
  {
    if s == [] then 0 else (if s[0] as int >= 0x10000 then 2 else 1) + CodeUnits(s[1..])
  }

  /** One character is two code units beyond U+FFFF and one otherwise. */
  lemma CodeUnitsChar(c: char)
    ensures CodeUnits([c]) == if c as int >= 0x10000 then 2 else 1
  {
    assert [c][1..] == [];
  }

  /** `(a + b).length` is `a.length + b.length`; with `CodeUnitsChar` this
      gives the count of any string, astral characters mixed in or not. */
  lemma {:induction false} CodeUnitsAppend(a: string, b: string)
    ensures CodeUnits(a + b) == CodeUnits(a) + CodeUnits(b)
  {
    if a != [] {
      assert (a + b)[1..] == a[1..] + b;
      CodeUnitsAppend(a[1..], b);
    } else {
      assert a + b == b;
    }
  }

  /** Five characters beyond U+FFFF are ten code units, so such an address
      is long enough. */
  lemma AstralAddressPasses(address: string)
    requires address == "\U{1D400}\U{1D400}\U{1D400}\U{1D400}\U{1D400}"
    ensures AddressOk(address)
  {
    assert TrimStart(address) == address;
    assert TrimEnd(address) == address;
  }

  /** A character of `[^\s@]`. */
  predicate Plain(c: char) {
    !IsSpace(c) && c != '@'
  }

  /** /^[^\s@]+@[^\s@]+\.[^\s@]+$/: an '@' with plain characters before it,
      and after it plain characters around a '.' that is neither the first
      nor the last of them. */
  predicate EmailPattern(s: string) {
    exists at, dot :: 0 < at < |s| && 0 <= dot < |s| && at + 1 < dot && dot + 1 < |s|
      && s[at] == '@' && s[dot] == '.'
      && forall i :: 0 <= i < |s| && i != at ==> Plain(s[i])
  }

  /** E-mail: present and the pattern. */
  predicate EmailOk(email: string) {
    email != "" && EmailPattern(email)
  }

  /** An address the pattern accepts has exactly one '@', no whitespace,
      something before the '@', and a '.' after it. */
  lemma EmailShape(s: string)
    requires EmailPattern(s)
    ensures exists at :: (0 < at < |s| && s[at] == '@'
                          && (forall i :: 0 <= i < |s| && s[i] == '@' ==> i == at)
                          && (exists dot :: at < dot < |s| - 1 && s[dot] == '.'))
    ensures forall i :: 0 <= i < |s| ==> !IsSpace(s[i])
  {
    var at, dot :| 0 < at < |s| && 0 <= dot < |s| && at + 1 < dot && dot + 1 < |s|
      && s[at] == '@' && s[dot] == '.'
      && forall i :: 0 <= i < |s| && i != at ==> Plain(s[i]);
    assert forall i :: 0 <= i < |s| && s[i] == '@' ==> i == at;
    assert at < dot < |s| - 1 && s[dot] == '.';
  }

  // ---------------------------------------------------------------------
  // The validator

  datatype FormData = FormData(name: string, phone: string, zip: string, address: string, email: string)

  const NameError := "ФИО должно состоять из трех слов (Фамилия Имя Отчество)"
  const PhoneError := "Введите корректный номер телефона России (например: +7 (999) 123-45-67)"
  const ZipError := "Индекс должен состоять из 6 цифр"
  const AddressError := "Введите полный адрес доставки (не менее 10 символов)"
  const EmailError := "Введите корректный email адрес"

  function ErrorIf(failed: bool, message: string): seq<string> {
    if failed then [message] else []
  }

  /** The messages for the rules that failed, in the order the rules are
      checked. */
  function ErrorsFor(nameOk: bool, phoneOk: bool, zipOk: bool, addressOk: bool, emailOk: bool): seq<string> {
    ErrorIf(!nameOk, NameError) + ErrorIf(!phoneOk, PhoneError) + ErrorIf(!zipOk, ZipError)
    + ErrorIf(!addressOk, AddressError) + ErrorIf(!emailOk, EmailError)
  }

  /** Every failing rule's message, in the order the rules are checked. */
  function FormErrors(d: FormData): seq<string> {
    ErrorsFor(NameOk(d.name), PhoneOk(d.phone), ZipOk(d.zip), AddressOk(d.address), EmailOk(d.email))
  }

  predicate AllRulesHold(d: FormData) {
    NameOk(d.name) && PhoneOk(d.phone) && ZipOk(d.zip) && AddressOk(d.address) && EmailOk(d.email)
  }

  /** `validateFormData`: every rule is checked, each failure adds its
      message, and the form is valid exactly when no message was added.
      (The source shows the messages as a notification.) */
  method ValidateFormData(d: FormData) returns (valid: bool, errors: seq<string>)
    ensures errors == FormErrors(d)
    ensures valid <==> errors == []
  {
    var nameOk, phoneOk, zipOk := NameOk(d.name), PhoneOk(d.phone), ZipOk(d.zip);
    var addressOk, emailOk := AddressOk(d.address), EmailOk(d.email);
    errors := CollectErrors(nameOk, phoneOk, zipOk, addressOk, emailOk);
    valid := |errors| == 0;
  }

  /** The body of `validateFormData` once each rule has been evaluated:
      a message is pushed for every rule that failed, in order. */
  method CollectErrors(nameOk: bool, phoneOk: bool, zipOk: bool, addressOk: bool, emailOk: bool)
    returns (errors: seq<string>)
    ensures errors == ErrorsFor(nameOk, phoneOk, zipOk, addressOk, emailOk)
  {
    errors := [];
    if !nameOk {
      errors := errors + [NameError];
    }
    assert errors == ErrorIf(!nameOk, NameError);
    if !phoneOk {
      errors := errors + [PhoneError];
    }
    assert errors == ErrorIf(!nameOk, NameError) + ErrorIf(!phoneOk, PhoneError);
    if !zipOk {
      errors := errors + [ZipError];
    }
    assert errors == ErrorIf(!nameOk, NameError) + ErrorIf(!phoneOk, PhoneError) + ErrorIf(!zipOk, ZipError);
    if !addressOk {
      errors := errors + [AddressError];
    }
    assert errors == ErrorIf(!nameOk, NameError) + ErrorIf(!phoneOk, PhoneError) + ErrorIf(!zipOk, ZipError)
                     + ErrorIf(!addressOk, AddressError);
    if !emailOk {
      errors := errors + [EmailError];
    }
  }

  /** The validator does not stop at the first failure: there is one
      message per failing rule, each rule's message is there exactly when
      that rule fails, and there are none exactly when all five hold. */
  lemma ErrorsPerRule(nameOk: bool, phoneOk: bool, zipOk: bool, addressOk: bool, emailOk: bool)
    ensures var e := ErrorsFor(nameOk, phoneOk, zipOk, addressOk, emailOk);
      && |e| == Ind(!nameOk) + Ind(!phoneOk) + Ind(!zipOk) + Ind(!addressOk) + Ind(!emailOk)
      && (NameError in e <==> !nameOk)
      && (PhoneError in e <==> !phoneOk)
      && (ZipError in e <==> !zipOk)
      && (AddressError in e <==> !addressOk)
      && (EmailError in e <==> !emailOk)
      && (e == [] <==> nameOk && phoneOk && zipOk && addressOk && emailOk)
  {
  }

  lemma FormErrorsPerRule(d: FormData)
    ensures |FormErrors(d)| == Ind(!NameOk(d.name)) + Ind(!PhoneOk(d.phone)) + Ind(!ZipOk(d.zip))
                               + Ind(!AddressOk(d.address)) + Ind(!EmailOk(d.email))
    ensures FormErrors(d) == [] <==> AllRulesHold(d)
  {
    ErrorsPerRule(NameOk(d.name), PhoneOk(d.phone), ZipOk(d.zip), AddressOk(d.address), EmailOk(d.email));
  }

  /** A name without whitespace (a single word, such as "Ivan") fails the
      name rule. */
  lemma SingleWordNameFails(name: string)
    requires forall i :: 0 <= i < |name| ==> !IsSpace(name[i])
    ensures !NameOk(name)
  {
    NameOkIffThreeWords(name);
    if name != [] {
      NoSpaceNoNewWords(name[1..]);
      assert WordsFrom(name, true) == 1 + WordsFrom(name[1..], false);
    }
  }

  lemma {:induction false} NoSpaceNoNewWords(s: string)
    requires forall i :: 0 <= i < |s| ==> !IsSpace(s[i])
    ensures WordsFrom(s, false) == 0
    decreases |s|
  {
    if s != [] {
      NoSpaceNoNewWords(s[1..]);
    }
  }

  lemma PhoneShortFails(phone: string)
    requires phone == "123"
    ensures !PhoneOk(phone)
  {
  }

  lemma AddressShortFails(address: string)
    requires address == "short"
    ensures !AddressOk(address)
  {
    assert TrimStart(address) == address;
    assert TrimEnd(address) == address;
  }

  lemma EmailBadFails(email: string)
    requires email == "bad"
    ensures !EmailOk(email)
  {
    var s := "bad";
    assert forall i :: 0 <= i < |s| ==> s[i] != '@';
  }

  lemma ZipShortFails(zip: string)
    requires zip == "12"
    ensures !ZipOk(zip)
  {
  }
}
