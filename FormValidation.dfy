/** The pure parts of the user creation form
    (src/widgets/user-form/UserForm.tsx): `validate` with its two pattern
    checks, and `generateAvatarUrl`. */
module FormValidation {
  import opened Types
  import opened Text

  const NameRequired := "Имя обязательно"
  const UsernameRequired := "Имя пользователя обязательно"
  const EmailRequired := "Email обязателен"
  const EmailInvalid := "Некорректный формат email"
  const PhoneRequired := "Телефон обязателен"
  const PhoneInvalid := "Формат: +7 999 999-99-99"

  /** The five controlled inputs of the form. */
  datatype FormFields = FormFields(name: string, username: string, email: string, phone: string, zipcode: string)

  /** The form's field names, which are also the keys of its errors object. */
  datatype Field = NameField | UsernameField | EmailField | PhoneField | ZipcodeField

  // ---------------------------------------------------------------- email

  /** `[^\s@]` */
  predicate EmailChar(c: char)
  {
    !IsSpace(c) && c != '@'
  }

  predicate AllEmailChars(s: string)
  {
    forall k :: 0 <= k < |s| ==> EmailChar(s[k])
  }

  /** `/^[^\s@]+@[^\s@]+\.[^\s@]+$/`: the string splits, at an '@' and at a
      later '.', into three non-empty runs of `[^\s@]`. */
  predicate MatchesEmailPattern(s: string)
  {
    exists i, j | 0 < i < j < |s| :: EmailSplit(s, i, j)
  }

  /** The '@' at `i` and the '.' at `j` cut `s` into the pattern's three runs. */
  predicate EmailSplit(s: string, i: int, j: int)
  {
    && 0 < i && i + 1 < j && j + 1 < |s|
    && s[i] == '@' && s[j] == '.'
    && AllEmailChars(s[..i]) && AllEmailChars(s[i + 1..j]) && AllEmailChars(s[j + 1..])
  }

  /** The accepted shape in words: no white space, exactly one '@' with
      something before it, and a '.' after the '@' that is neither the
      first nor the last character of the domain. */
  ghost predicate EmailShape(s: string)
  {
    && (forall k :: 0 <= k < |s| ==> !IsSpace(s[k]))
    && (exists a :: 0 < a < |s| && s[a] == '@'
         && (forall k :: 0 <= k < |s| && k != a ==> s[k] != '@')
         && (exists d :: a + 1 < d < |s| - 1 && s[d] == '.'))
  }

  lemma EmailPatternIsShape(s: string)
    ensures MatchesEmailPattern(s) <==> EmailShape(s)
  {
    if MatchesEmailPattern(s) {
      var i, j :| 0 < i < j < |s| && EmailSplit(s, i, j);
      forall k | 0 <= k < |s| && k != i && k != j ensures EmailChar(s[k]) {
        if k < i {
          assert s[..i][k] == s[k];
        } else if k < j {
          assert s[i + 1..j][k - i - 1] == s[k];
        } else {
          assert s[j + 1..][k - j - 1] == s[k];
        }
      }
      assert EmailShape(s);
    }
    if EmailShape(s) {
      var a :| 0 < a < |s| && s[a] == '@'
        && (forall k :: 0 <= k < |s| && k != a ==> s[k] != '@')
        && (exists d :: a + 1 < d < |s| - 1 && s[d] == '.');
      var d :| a + 1 < d < |s| - 1 && s[d] == '.';
      assert AllEmailChars(s[..a]);
      assert AllEmailChars(s[a + 1..d]);
      assert AllEmailChars(s[d + 1..]);
      assert EmailSplit(s, a, d);
    }
  }

  // ---------------------------------------------------------------- phone

  /** One position of a fixed-length pattern: a literal character or `\d`. */
  datatype PatternItem = Lit(c: char) | Digit

  predicate ItemMatches(p: PatternItem, c: char)
  {
    match p
    case Lit(x) => c == x
    case Digit => IsDigit(c)
  }

  /** `/^\+7 \d{3} \d{3}-\d{2}-\d{2}$/`, one item per character. */
  const PhonePattern: seq<PatternItem> := [
    Lit('+'), Lit('7'), Lit(' '), Digit, Digit, Digit, Lit(' '), Digit, Digit, Digit,
    Lit('-'), Digit, Digit, Lit('-'), Digit, Digit]

  predicate MatchesPhonePattern(s: string)
  {
    |s| == |PhonePattern| && forall k :: 0 <= k < |s| ==> ItemMatches(PhonePattern[k], s[k])
  }

  predicate AllDigits(d: string)
  {
    forall k :: 0 <= k < |d| ==> IsDigit(d[k])
  }

  /** The input mask "+7 000 000-00-00" with its ten slots filled. */
  function MaskedPhone(d: string): (s: string)
    requires |d| == 10
  {
    "+7 " + d[..3] + " " + d[3..6] + "-" + d[6..8] + "-" + d[8..]
  }

  /** The ten digits of a phone number in the pattern's layout. */
  function PhoneDigits(s: string): (d: string)
    requires |s| == 16
  {
    s[3..6] + s[7..10] + s[11..13] + s[14..]
  }

  /** Where the k-th digit of a phone number sits in the pattern. */
  function DigitPos(k: int): int
  {
    if k < 3 then k + 3 else if k < 6 then k + 4 else if k < 8 then k + 5 else k + 6
  }

  lemma PhoneDigitsAt(s: string)
    requires |s| == 16
    ensures |PhoneDigits(s)| == 10
    ensures forall k | 0 <= k < 10 :: PhoneDigits(s)[k] == s[DigitPos(k)]
  {
  }

  lemma MaskedPhoneAt(d: string)
    requires |d| == 10
    ensures var m := MaskedPhone(d);
      && |m| == 16
      && m[0] == '+' && m[1] == '7' && m[2] == ' ' && m[6] == ' ' && m[10] == '-' && m[13] == '-'
      && forall k | 0 <= k < 10 :: m[DigitPos(k)] == d[k]
  {
  }

  /** Every completely filled mask passes the pattern, and its digits can be read back. */
  lemma MaskedPhoneMatches(d: string)
    requires |d| == 10 && AllDigits(d)
    ensures MatchesPhonePattern(MaskedPhone(d))
    ensures PhoneDigits(MaskedPhone(d)) == d
  {
    var m := MaskedPhone(d);
    MaskedPhoneAt(d);
    PhoneDigitsAt(m);
    forall i | 0 <= i < 16 ensures ItemMatches(PhonePattern[i], m[i]) {
      if PhonePattern[i] == Digit {
        var k := if i < 6 then i - 3 else if i < 10 then i - 4 else if i < 13 then i - 5 else i - 6;
        assert DigitPos(k) == i;
      }
    }
  }

  /** A 16-character string with the mask's separators in place is the
      mask filled with its own digits. */
  lemma MaskOfOwnDigits(s: string)
    requires |s| == 16
    requires s[0] == '+' && s[1] == '7' && s[2] == ' ' && s[6] == ' ' && s[10] == '-' && s[13] == '-'
    ensures MaskedPhone(PhoneDigits(s)) == s
  {
    var d := PhoneDigits(s);
    assert s[..3] == "+7 ";
    assert d[..3] == s[3..6] && d[3..6] == s[7..10] && d[6..8] == s[11..13] && d[8..] == s[14..];
    assert s == s[..3] + s[3..6] + [s[6]] + s[7..10] + [s[10]] + s[11..13] + [s[13]] + s[14..];
  }

  /** The pattern accepts nothing but filled masks. */
  lemma PhonePatternIsMask(s: string)
    requires MatchesPhonePattern(s)
    ensures AllDigits(PhoneDigits(s))
    ensures MaskedPhone(PhoneDigits(s)) == s
  {
    var d := PhoneDigits(s);
    PhoneDigitsAt(s);
    forall k | 0 <= k < 10 ensures IsDigit(d[k]) {
      assert PhonePattern[DigitPos(k)] == Digit;
      assert ItemMatches(PhonePattern[DigitPos(k)], s[DigitPos(k)]);
    }
    assert ItemMatches(PhonePattern[0], s[0]) && ItemMatches(PhonePattern[1], s[1]) && ItemMatches(PhonePattern[2], s[2]);
    assert ItemMatches(PhonePattern[6], s[6]) && ItemMatches(PhonePattern[10], s[10]) && ItemMatches(PhonePattern[13], s[13]);
    MaskOfOwnDigits(s);
  }

  // --------------------------------------------------------------- errors

  const ErrorKeys: set<Field> := {NameField, UsernameField, EmailField, PhoneField}

  /** The outcome of each test `validate` performs on the fields. */
  datatype Checks = Checks(
    nameBlank: bool, usernameBlank: bool,
    emailBlank: bool, emailMatches: bool,
    phoneBlank: bool, phoneMatches: bool)

  /** The tests as `validate` runs them on the current field values. */
  function ChecksOf(f: FormFields): Checks
  {
    Checks(IsBlank(f.name), IsBlank(f.username),
      IsBlank(f.email), MatchesEmailPattern(f.email),
      IsBlank(f.phone), MatchesPhonePattern(f.phone))
  }

  /** The rule for one key of the errors object, given the test outcomes. */
  function RuleError(c: Checks, key: Field): Option<string>
  {
    match key
    case NameField => if c.nameBlank then Some(NameRequired) else None
    case UsernameField => if c.usernameBlank then Some(UsernameRequired) else None
    case EmailField =>
      if c.emailBlank then Some(EmailRequired)
      else if !c.emailMatches then Some(EmailInvalid)
      else None
    case PhoneField =>
      if c.phoneBlank then Some(PhoneRequired)
      else if !c.phoneMatches then Some(PhoneInvalid)
      else None
    case ZipcodeField => None
  }

  /** Checking one field: a failing rule adds its entry to the errors object. */
  function WithCheck(c: Checks, errors: map<Field, string>, key: Field): map<Field, string>
  {
    match RuleError(c, key)
    case Some(message) => errors[key := message]
    case None => errors
  }

  /** Name, username, email and phone checked in turn, starting from no errors. */
  function ErrorsFrom(c: Checks): map<Field, string>
  {
    WithCheck(c, WithCheck(c, WithCheck(c, WithCheck(c, map[], NameField), UsernameField), EmailField), PhoneField)
  }

  /** Each key's entry is decided by its own rule alone. */
  lemma ErrorsFromAt(c: Checks, key: Field)
    ensures key in ErrorsFrom(c) <==> RuleError(c, key).Some?
    ensures key in ErrorsFrom(c) ==> ErrorsFrom(c)[key] == RuleError(c, key).value
  {
  }

  /** One step of `validate` on the errors built so far. */
  lemma WithCheckStep(c: Checks, m: map<Field, string>, key: Field)
    ensures RuleError(c, key).None? ==> WithCheck(c, m, key) == m
    ensures RuleError(c, key).Some? ==> WithCheck(c, m, key) == m[key := RuleError(c, key).value]
  {
  }

  /** The rule for one key of the errors object. */
  function FieldError(f: FormFields, key: Field): Option<string>
  {
    RuleError(ChecksOf(f), key)
  }

  /** The errors object `validate` returns. */
  function ValidationErrors(f: FormFields): map<Field, string>
  {
    ErrorsFrom(ChecksOf(f))
  }

  /** `validate`: fills the errors object field by field. */
  method Validate(f: FormFields) returns (errors: map<Field, string>)
    ensures errors == ValidationErrors(f)
  {
    var nameBlank := IsBlank(f.name);
    var usernameBlank := IsBlank(f.username);
    var emailBlank := IsBlank(f.email);
    var emailMatches := MatchesEmailPattern(f.email);
    var phoneBlank := IsBlank(f.phone);
    var phoneMatches := MatchesPhonePattern(f.phone);
    ghost var c := Checks(nameBlank, usernameBlank, emailBlank, emailMatches, phoneBlank, phoneMatches);
    assert c == ChecksOf(f);
    errors := map[];
    if nameBlank {
      errors := errors[NameField := NameRequired];
    }
    WithCheckStep(c, map[], NameField);
    assert errors == WithCheck(c, map[], NameField);
    ghost var afterName := errors;
    if usernameBlank {
      errors := errors[UsernameField := UsernameRequired];
    }
    WithCheckStep(c, afterName, UsernameField);
    assert errors == WithCheck(c, afterName, UsernameField);
    ghost var afterUsername := errors;
    if emailBlank {
      errors := errors[EmailField := EmailRequired];
    } else if !emailMatches {
      errors := errors[EmailField := EmailInvalid];
    }
    WithCheckStep(c, afterUsername, EmailField);
    assert errors == WithCheck(c, afterUsername, EmailField);
    ghost var afterEmail := errors;
    if phoneBlank {
      errors := errors[PhoneField := PhoneRequired];
    } else if !phoneMatches {
      errors := errors[PhoneField := PhoneInvalid];
    }
    WithCheckStep(c, afterEmail, PhoneField);
    assert errors == WithCheck(c, afterEmail, PhoneField);
  }

  /** A field has an entry exactly when its rule fails, and the entry is
      that rule's message. */
  lemma ValidationErrorsAt(f: FormFields, key: Field)
    ensures key in ValidationErrors(f) <==> FieldError(f, key).Some?
    ensures key in ValidationErrors(f) ==> ValidationErrors(f)[key] == FieldError(f, key).value
  {
    ErrorsFromAt(ChecksOf(f), key);
  }

  /** Only the four checked fields can carry an error; the zipcode never does
      and does not influence the others. */
  lemma ValidationKeys(f: FormFields, zipcode: string)
    ensures ValidationErrors(f).Keys <= ErrorKeys
    ensures ZipcodeField !in ValidationErrors(f)
    ensures ValidationErrors(f.(zipcode := zipcode)) == ValidationErrors(f)
  {
    ValidationErrorsAt(f, ZipcodeField);
    assert ChecksOf(f.(zipcode := zipcode)) == ChecksOf(f);
  }

  /** A name or username error exactly when that field is blank. */
  lemma RequiredFieldRules(f: FormFields)
    ensures NameField in ValidationErrors(f) <==> AllSpace(f.name)
    ensures NameField in ValidationErrors(f) ==> ValidationErrors(f)[NameField] == NameRequired
    ensures UsernameField in ValidationErrors(f) <==> AllSpace(f.username)
    ensures UsernameField in ValidationErrors(f) ==> ValidationErrors(f)[UsernameField] == UsernameRequired
  {
    ValidationErrorsAt(f, NameField);
    ValidationErrorsAt(f, UsernameField);
    BlankIffAllSpace(f.name);
    BlankIffAllSpace(f.username);
  }

  /** A blank email is reported as missing; otherwise it is reported as
      malformed exactly when it does not have the accepted shape. */
  lemma EmailRule(f: FormFields)
    ensures AllSpace(f.email) ==> EmailField in ValidationErrors(f) && ValidationErrors(f)[EmailField] == EmailRequired
    ensures !AllSpace(f.email) ==>
      (EmailField in ValidationErrors(f) <==> !EmailShape(f.email))
      && (EmailField in ValidationErrors(f) ==> ValidationErrors(f)[EmailField] == EmailInvalid)
  {
    ValidationErrorsAt(f, EmailField);
    BlankIffAllSpace(f.email);
    EmailPatternIsShape(f.email);
  }

  /** A blank phone is reported as missing; otherwise it is accepted exactly
      when it is the input mask filled with ten digits. */
  lemma PhoneRule(f: FormFields)
    ensures AllSpace(f.phone) ==> PhoneField in ValidationErrors(f) && ValidationErrors(f)[PhoneField] == PhoneRequired
    ensures !AllSpace(f.phone) ==>
      (PhoneField !in ValidationErrors(f) <==> exists d :: |d| == 10 && AllDigits(d) && f.phone == MaskedPhone(d))
      && (PhoneField in ValidationErrors(f) ==> ValidationErrors(f)[PhoneField] == PhoneInvalid)
  {
    ValidationErrorsAt(f, PhoneField);
    BlankIffAllSpace(f.phone);
    if !AllSpace(f.phone) {
      if MatchesPhonePattern(f.phone) {
        PhonePatternIsMask(f.phone);
      }
      if exists d :: |d| == 10 && AllDigits(d) && f.phone == MaskedPhone(d) {
        var d :| |d| == 10 && AllDigits(d) && f.phone == MaskedPhone(d);
        MaskedPhoneMatches(d);
      }
    }
  }

  // --------------------------------------------------------------- avatar

  const AvatarPrefix := "https://dummyimage.com/100x100/000/fff&text="

  /** `name.trim().charAt(0).toUpperCase() || 'U'` */
  function AvatarLetter(name: string): char
  {
    var t := Trim(name);
    if t == [] then 'U' else ToUpper(t[0])
  }

  /** `generateAvatarUrl` */
  function AvatarUrl(name: string): (url: string)
    ensures |url| == |AvatarPrefix| + 1 && url[..|AvatarPrefix|] == AvatarPrefix
  {
    AvatarPrefix + [AvatarLetter(name)]
  }

  /** The avatar letter is the upper-cased first non-space character of the
      name, or 'U' for a blank name. */
  lemma AvatarLetterRule(name: string)
    ensures AllSpace(name) ==> AvatarUrl(name)[|AvatarPrefix|] == 'U'
    ensures !AllSpace(name) ==>
      (exists k :: 0 <= k < |name| && AllSpace(name[..k]) && !IsSpace(name[k])
         && AvatarUrl(name)[|AvatarPrefix|] == ToUpper(name[k]))
  {
    BlankIffAllSpace(name);
    if !AllSpace(name) {
      TrimStartsAtFirstNonSpace(name);
    }
  }
}
