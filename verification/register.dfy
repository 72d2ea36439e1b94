/**
 * The registration screen (screens/auth/RegisterScreen.tsx): eight text
 * fields, each validated when it loses focus, a password-strength label, the
 * rule that enables the Register button, and the registration itself, which
 * appends a user to `registeredUsers` unless the username or e-mail is taken.
 * Every pattern the screen tests is written out as a check over characters.
 */
module Register {
  import opened Common
  import opened Text
  import opened Records
  import opened KeyValueStore

  // ---------------------------------------------------------------- field checks

  /**
   * `/^[a-zA-Z0-9_]{3,20}$/`. A valid username holds no white space and no
   * '@', so it never passes the e-mail check.
   */
  predicate ValidUsername(s: string)
    ensures ValidUsername(s) ==> forall i :: 0 <= i < |s| ==> !IsSpace(s[i])
    ensures ValidUsername(s) ==> !ValidEmail(s)
  {
    3 <= |s| <= 20 && forall i :: 0 <= i < |s| ==> IsWordChar(s[i])
  }

  /** `/^09\d{9}$/`: eleven characters, '09' then nine digits, so every character is a digit. */
  predicate ValidContactNumber(s: string)
    ensures ValidContactNumber(s) ==> |s| == 11 && forall i :: 0 <= i < |s| ==> IsDigit(s[i])
  {
    |s| == 11 && s[0] == '0' && s[1] == '9' && forall i :: 2 <= i < 11 ==> IsDigit(s[i])
  }

  /** `/^\d{4}-\d{2}-\d{2}$/`: the shape of a date only, made of digits and dashes. */
  predicate ValidBirthday(s: string)
    ensures ValidBirthday(s) ==> forall i :: 0 <= i < |s| ==> IsDigit(s[i]) || s[i] == '-'
  {
    |s| == 10 && s[4] == '-' && s[7] == '-' &&
    forall i :: 0 <= i < 10 && i != 4 && i != 7 ==> IsDigit(s[i])
  }

  /** A valid birthday splits on '-' into a four-digit year, a two-digit month and a two-digit day. */
  lemma BirthdayParts(s: string)
    requires ValidBirthday(s)
    ensures Split(s, '-') == [s[..4], s[5..7], s[8..]]
    ensures |s[..4]| == 4 && |s[5..7]| == 2 && |s[8..]| == 2
  {
    var day := s[8..];
    assert '-' !in day by {
      assert forall k :: 0 <= k < |day| ==> day[k] == s[8 + k];
    }
    IndexOfAbsent(day, '-');
    assert Split(day, '-') == [day];
    assert s[5..] == s[5..7] + s[7..] && s[7..][1..] == day;
    assert '-' !in s[5..7] by {
      assert s[5..7][0] == s[5] && s[5..7][1] == s[6];
    }
    SplitFirstWord(s[5..7], '-', s[7..]);
    assert s == s[..4] + s[4..] && s[4..][1..] == s[5..];
    assert '-' !in s[..4] by {
      assert forall k :: 0 <= k < 4 ==> s[..4][k] == s[k];
    }
    SplitFirstWord(s[..4], '-', s[4..]);
  }

  /** The birthday check does not look at the calendar: month 13, day 45 passes. */
  lemma BirthdayShapeOnly()
    ensures ValidBirthday("2023-13-45")
    ensures !ValidBirthday("2023-1-5")
  {
  }

  /** A character `[^\s@]` accepts. */
  predicate EmailChar(c: char)
  {
    !IsSpace(c) && c != '@'
  }

  /**
   * `/^[^\s@]+@[^\s@]+\.[^\s@]+$/`, as the pattern reads: a split of the
   * text into a non-empty local part, '@', a non-empty domain head, '.', and
   * a non-empty tail, none of them holding white space or '@'.
   */
  ghost predicate EmailPattern(s: string)
  {
    exists i, j :: 0 < i && i + 1 < j && j + 1 < |s| && s[i] == '@' && s[j] == '.' &&
      forall k :: 0 <= k < |s| && k != i ==> EmailChar(s[k])
  }

  /** The e-mail check as a scan: the first '@' is not at the start, every other character is allowed, and a '.' sits strictly inside the part after '@'. */
  predicate ValidEmail(s: string)
    ensures ValidEmail(s) ==> |s| >= 5 && '@' in s && '.' in s
  {
    var at := IndexOf(s, '@');
    0 < at && at + 2 <= |s| - 1 &&
    (forall k :: 0 <= k < |s| && k != at ==> EmailChar(s[k])) &&
    '.' in s[at + 2 .. |s| - 1]
  }

  /** The scan accepts exactly the texts the pattern matches. */
  lemma ValidEmailMatchesPattern(s: string)
    ensures ValidEmail(s) <==> EmailPattern(s)
  {
    if ValidEmail(s) {
      var at := IndexOf(s, '@');
      var m :| 0 <= m < |s[at + 2 .. |s| - 1]| && s[at + 2 .. |s| - 1][m] == '.';
      assert s[at + 2 + m] == '.';
    }
    if EmailPattern(s) {
      var i, j :| 0 < i && i + 1 < j && j + 1 < |s| && s[i] == '@' && s[j] == '.' &&
        forall k :: 0 <= k < |s| && k != i ==> EmailChar(s[k]);
      var at := IndexOf(s, '@');
      assert forall k :: 0 <= k < i ==> s[k] != '@';
      assert at == i;
      assert s[at + 2 .. |s| - 1][j - (at + 2)] == '.';
    }
  }

  /** Joining a local part, '@', a domain head, '.' and a tail, each non-empty and free of white space and '@', gives a valid e-mail. */
  lemma ValidEmailFromParts(local: string, head: string, tail: string)
    requires local != [] && head != [] && tail != []
    requires forall k :: 0 <= k < |local| ==> EmailChar(local[k])
    requires forall k :: 0 <= k < |head| ==> EmailChar(head[k])
    requires forall k :: 0 <= k < |tail| ==> EmailChar(tail[k])
    ensures ValidEmail(local + "@" + head + "." + tail)
  {
    var s := local + "@" + head + "." + tail;
    var i, j := |local|, |local| + 1 + |head|;
    assert s[i] == '@' && s[j] == '.';
    forall k | 0 <= k < |s| && k != i
      ensures EmailChar(s[k])
    {
      if k < i {
        assert s[k] == local[k];
      } else if k < j {
        assert s[k] == head[k - i - 1];
      } else if k > j {
        assert s[k] == tail[k - j - 1];
      }
    }
    assert EmailPattern(s);
    ValidEmailMatchesPattern(s);
  }

  // ------------------------------------------------------------ password strength

  /** The strength label the screen shows. */
  datatype Strength = Weak | Medium | Strong

  /** `(?=.*X)` at the start: a character of class X occurs before any line break. */
  ghost predicate Lookahead(s: string, x: char -> bool)
  {
    exists i :: 0 <= i < |s| && x(s[i]) && forall k :: 0 <= k < i ==> !IsLineTerminator(s[k])
  }

  /** `.{n,}$` at the start: at least n characters and no line break anywhere. */
  ghost predicate DotsToEnd(s: string, n: nat)
  {
    |s| >= n && forall k :: 0 <= k < |s| ==> !IsLineTerminator(s[k])
  }

  /** `/^(?=.*[a-z])(?=.*[A-Z])(?=.*\d).{8,}$/` */
  ghost predicate MediumPattern(s: string)
  {
    Lookahead(s, IsLower) && Lookahead(s, IsUpper) && Lookahead(s, IsDigit) && DotsToEnd(s, 8)
  }

  /** `/[\W_]/`: some character is neither an ASCII letter nor a digit. */
  ghost predicate SymbolPattern(s: string)
  {
    exists k :: 0 <= k < |s| && !IsAlnum(s[k])
  }

  /** `/^(?=.*[a-z])(?=.*[A-Z])(?=.*\d)(?=.*[\W_]).{8,}$/` */
  ghost predicate StrongPattern(s: string)
  {
    MediumPattern(s) && Lookahead(s, c => !IsAlnum(c))
  }

  /** The branches of `validatePasswordStrength`, in the source's order, over the patterns as they read. */
  ghost function StrengthByPatterns(s: string): Strength
  {
    if |s| < 8 then Weak
    else if MediumPattern(s) && !SymbolPattern(s) then Medium
    else if StrongPattern(s) then Strong
    else Weak
  }

  predicate HasLower(s: string) { exists i :: 0 <= i < |s| && IsLower(s[i]) }
  predicate HasUpper(s: string) { exists i :: 0 <= i < |s| && IsUpper(s[i]) }
  predicate HasDigit(s: string) { exists i :: 0 <= i < |s| && IsDigit(s[i]) }
  predicate AllAlnum(s: string) { forall i :: 0 <= i < |s| ==> IsAlnum(s[i]) }
  predicate NoLineBreak(s: string) { forall i :: 0 <= i < |s| ==> !IsLineTerminator(s[i]) }

  /**
   * The strength classification: under 8 characters is weak; a lower-case
   * letter, an upper-case letter and a digit with nothing else is medium;
   * those three plus a symbol (underscore included) is strong, provided there
   * is no line break; anything else is weak.
   */
  function PasswordStrength(s: string): (r: Strength)
    ensures |s| < 8 ==> r == Weak
    ensures r == Medium <==> |s| >= 8 && HasLower(s) && HasUpper(s) && HasDigit(s) && AllAlnum(s)
    ensures r == Strong <==> |s| >= 8 && HasLower(s) && HasUpper(s) && HasDigit(s) && !AllAlnum(s) && NoLineBreak(s)
  {
    if |s| < 8 then Weak
    else if HasLower(s) && HasUpper(s) && HasDigit(s) && AllAlnum(s) then Medium
    else if HasLower(s) && HasUpper(s) && HasDigit(s) && NoLineBreak(s) then Strong
    else Weak
  }

  /** Without line breaks a lookahead finds a character of its class anywhere. */
  lemma LookaheadWithoutBreaks(s: string, x: char -> bool)
    requires NoLineBreak(s)
    ensures Lookahead(s, x) <==> exists i :: 0 <= i < |s| && x(s[i])
  {
  }

  /** A lookahead only succeeds on a character of its class. */
  lemma LookaheadFinds(s: string, x: char -> bool)
    requires Lookahead(s, x)
    ensures exists i :: 0 <= i < |s| && x(s[i])
  {
  }

  /** The classification agrees with the source's patterns on every text. */
  lemma PasswordStrengthMatchesPatterns(s: string)
    ensures PasswordStrength(s) == StrengthByPatterns(s)
  {
    if |s| >= 8 {
      if MediumPattern(s) {
        LookaheadFinds(s, IsLower);
        LookaheadFinds(s, IsUpper);
        LookaheadFinds(s, IsDigit);
      }
      if HasLower(s) && HasUpper(s) && HasDigit(s) && NoLineBreak(s) {
        LookaheadWithoutBreaks(s, IsLower);
        LookaheadWithoutBreaks(s, IsUpper);
        LookaheadWithoutBreaks(s, IsDigit);
        LookaheadWithoutBreaks(s, c => !IsAlnum(c));
      }
      if AllAlnum(s) {
        assert NoLineBreak(s);
      }
      if StrongPattern(s) {
        LookaheadFinds(s, c => !IsAlnum(c));
      }
    }
  }

  /** The label `setPasswordStrength` stores. */
  function StrengthLabel(st: Strength): (r: string)
    ensures r in {"Weak", "Medium", "Strong"}
    ensures r == "Weak" <==> st == Weak
  {
    match st
    case Weak => "Weak"
    case Medium => "Medium"
    case Strong => "Strong"
  }

  /** Too short is weak whatever the characters. */
  lemma ShortPasswordIsWeak()
    ensures PasswordStrength("Ab1!") == Weak
  {
  }

  /** Letters of both cases and a digit, nothing else: medium. */
  lemma AlnumPasswordIsMedium()
    ensures PasswordStrength("Abcdefg1") == Medium
  {
    var s := "Abcdefg1";
    assert IsLower(s[1]) && IsUpper(s[0]) && IsDigit(s[7]);
  }

  /** An underscore counts as a symbol: strong. */
  lemma UnderscorePasswordIsStrong()
    ensures PasswordStrength("Abcdef1_") == Strong
  {
    var s := "Abcdef1_";
    assert IsLower(s[1]) && IsUpper(s[0]) && IsDigit(s[6]) && !IsAlnum(s[7]);
  }

  // ---------------------------------------------------------------- the form

  /** The eight inputs of the form. */
  datatype Field = Username | Name | Email | Password | ConfirmPassword | ContactNumber | Address | Birthday

  const AllFields: set<Field> := {Username, Name, Email, Password, ConfirmPassword, ContactNumber, Address, Birthday}

  const Required := "This field is required"

  /** The message shown for a non-empty value that fails its field's check. */
  function InvalidMessage(f: Field): (r: string)
    ensures r != ""
    ensures r == Required <==> f == Name || f == Address
  {
    match f
    case Username => "Username must be 3-20 characters (letters, numbers, _)"
    case Email => "Enter a valid email address"
    case Password => "Password must include uppercase, lowercase, number, and special character"
    case ConfirmPassword => "Passwords do not match"
    case ContactNumber => "Contact number must start with 09 and be 11 digits"
    case Birthday => "Birthday must be in YYYY-MM-DD format"
    case Name => Required
    case Address => Required
  }

  /** Whether a non-empty value passes its field's check; the confirmation is compared with the password. */
  predicate Passes(f: Field, value: string, password: string)
  {
    match f
    case Username => ValidUsername(value)
    case Email => ValidEmail(value)
    case Password => PasswordStrength(value) != Weak
    case ConfirmPassword => value == password
    case ContactNumber => ValidContactNumber(value)
    case Birthday => ValidBirthday(value)
    case Name => true
    case Address => true
  }

  /** `validateField(field, value)`: '' when the value is present and passes, else the field's message. */
  function FieldError(f: Field, value: string, password: string): (r: string)
    ensures value == "" ==> r == Required
    ensures value != "" ==> (r == "" <==> Passes(f, value, password))
    ensures value != "" && r != "" ==> r == InvalidMessage(f)
  {
    if value == "" then Required
    else if Passes(f, value, password) then ""
    else InvalidMessage(f)
  }

  /** The Register button's rule: no error recorded, every field touched, every field filled. */
  predicate FormValid(values: map<Field, string>, errors: map<Field, string>, touched: set<Field>)
    ensures FormValid(values, errors, touched) ==>
      forall f :: f in AllFields ==> f in values && Password in values && FieldError(f, values[f], values[Password]) != Required
  {
    (forall f :: f in errors ==> errors[f] == "") && AllFields <= touched &&
    forall f :: f in AllFields ==> f in values && values[f] != ""
  }

  /** Errors as the current values would give them. */
  predicate ErrorsCurrent(values: map<Field, string>, errors: map<Field, string>)
    requires Password in values
  {
    forall f :: f in values ==> f in errors && errors[f] == FieldError(f, values[f], values[Password])
  }

  /** When every error reflects the current values, a valid form passes every field check. */
  lemma FormValidMeansChecksPass(values: map<Field, string>, errors: map<Field, string>, touched: set<Field>)
    requires Password in values && ErrorsCurrent(values, errors)
    requires FormValid(values, errors, touched)
    ensures ValidUsername(values[Username]) && ValidEmail(values[Email]) && PasswordStrength(values[Password]) != Weak
    ensures values[ConfirmPassword] == values[Password] && ValidContactNumber(values[ContactNumber])
    ensures ValidBirthday(values[Birthday]) && values[Name] != "" && values[Address] != ""
  {
    forall f | f in AllFields
      ensures Passes(f, values[f], values[Password])
    {
      assert errors[f] == "";
    }
  }

  /**
   * Errors are recomputed only on blur, so a value edited after its last blur
   * keeps a stale verdict: here the confirmation matched when it was left,
   * the password changed afterwards, and the form still counts as valid.
   */
  lemma StaleErrorsKeepFormValid(values: map<Field, string>)
    requires forall f :: f in AllFields ==> f in values && values[f] != ""
    requires values[ConfirmPassword] == values[Password] && values[Password] != "Xyz12345"
    ensures var edited := values[Password := "Xyz12345"];
            var errors := map f | f in AllFields :: "";
            FormValid(edited, errors, AllFields) && edited[ConfirmPassword] != edited[Password]
  {
  }

  // ------------------------------------------------------------ registration

  /** The record registration stores: the e-mail lower-cased, a clock id and timestamp, no role or phone. */
  function NewUser(values: map<Field, string>, id: string, nowIso: string): (u: User)
    requires AllFields <= values.Keys
    ensures u.id == Some(id) && u.registrationDate == Some(nowIso) && u.role.None? && u.phone.None?
    ensures u.email == ToLower(values[Email]) && u.username == values[Username] && u.name == values[Name]
    ensures u.password == values[Password] && u.contactNumber == values[ContactNumber]
    ensures u.address == values[Address] && u.birthday == values[Birthday]
  {
    User(Some(id), values[Username], values[Name], ToLower(values[Email]), values[Password],
         values[ContactNumber], values[Address], values[Birthday], Some(nowIso), None, None)
  }

  /** How `handleRegister` ends once the form is valid. */
  datatype Registration = UsernameTaken | EmailTaken | Registered(users: seq<User>)

  /** `users.some(u => u.username === username)`: some position holds the username. */
  predicate UsernameInUse(users: seq<User>, username: string)
    ensures UsernameInUse(users, username) <==> exists i :: 0 <= i < |users| && users[i].username == username
  {
    exists u :: u in users && u.username == username
  }

  /** `users.some(u => u.email === email)`: some position holds the e-mail. */
  predicate EmailInUse(users: seq<User>, email: string)
    ensures EmailInUse(users, email) <==> exists i :: 0 <= i < |users| && users[i].email == email
  {
    exists u :: u in users && u.email == email
  }

  /** The username check comes first; on success the candidate is appended and no existing user changes. */
  function Register(users: seq<User>, candidate: User): (r: Registration)
    ensures r == UsernameTaken <==> UsernameInUse(users, candidate.username)
    ensures r == EmailTaken <==> !UsernameInUse(users, candidate.username) && EmailInUse(users, candidate.email)
    ensures r.Registered? ==> |r.users| == |users| + 1 && r.users[..|users|] == users && r.users[|users|] == candidate
  {
    if UsernameInUse(users, candidate.username) then UsernameTaken
    else if EmailInUse(users, candidate.email) then EmailTaken
    else Registered(users + [candidate])
  }

  /** No two users share a username or an e-mail. */
  predicate UniqueUsers(users: seq<User>)
  {
    forall i, j :: 0 <= i < j < |users| ==> users[i].username != users[j].username && users[i].email != users[j].email
  }

  /** Registration keeps usernames and e-mails unique. */
  lemma RegisterKeepsUnique(users: seq<User>, candidate: User)
    requires UniqueUsers(users)
    requires Register(users, candidate).Registered?
    ensures UniqueUsers(Register(users, candidate).users)
  {
    var r := Register(users, candidate).users;
    forall i, j | 0 <= i < j < |r|
      ensures r[i].username != r[j].username && r[i].email != r[j].email
    {
      if j == |users| {
        assert r[i] == users[i] && users[i] in users;
      }
    }
  }

  /** Every stored e-mail is lower-case. */
  predicate LowerCaseEmails(users: seq<User>)
  {
    forall i :: 0 <= i < |users| ==> ToLower(users[i].email) == users[i].email
  }

  /** Users created by registration keep every stored e-mail lower-case, so the e-mail check ignores case. */
  lemma RegisterKeepsLowerCase(users: seq<User>, values: map<Field, string>, id: string, nowIso: string)
    requires AllFields <= values.Keys && LowerCaseEmails(users)
    requires Register(users, NewUser(values, id, nowIso)).Registered?
    ensures LowerCaseEmails(Register(users, NewUser(values, id, nowIso)).users)
  {
    ToLowerIdempotent(values[Email]);
  }

  /** The registration screen's state. */
  class RegisterScreen {
    var values: map<Field, string>
    var errors: map<Field, string>
    var touched: set<Field>
    var passwordStrength: string
    const storage: AsyncStorage

    /** Every field has a value and an error entry. */
    predicate Valid()
      reads this
    {
      values.Keys == AllFields && errors.Keys == AllFields && touched <= AllFields
    }

    constructor (storage: AsyncStorage)
      ensures Valid() && touched == {} && passwordStrength == "" && this.storage == storage
      ensures forall f :: f in AllFields ==> values[f] == "" && errors[f] == ""
    {
      values := map f | f in AllFields :: "";
      errors := map f | f in AllFields :: "";
      touched := {};
      passwordStrength := "";
      this.storage := storage;
    }

    /** The Register button is enabled: only once every field has been left at least once and none would show 'required'. */
    predicate IsFormValid()
      reads this
      ensures Valid() && IsFormValid() ==> touched == AllFields
      ensures IsFormValid() ==>
        forall f :: f in AllFields ==> f in values && Password in values && FieldError(f, values[f], values[Password]) != Required
    {
      FormValid(values, errors, touched)
    }

    /** Typing into a field sets its value and validates nothing. */
    method ChangeText(f: Field, text: string)
      requires Valid()
      modifies this
      ensures Valid() && values == old(values)[f := text]
      ensures errors == old(errors) && touched == old(touched) && passwordStrength == old(passwordStrength)
    {
      values := values[f := text];
    }

    /**
     * `handleBlur(field)`: the field becomes touched and its error is
     * recomputed from its current value; a non-empty password also updates
     * the strength label.
     */
    method Blur(f: Field)
      requires Valid()
      modifies this
      ensures Valid() && values == old(values) && touched == old(touched) + {f}
      ensures errors == old(errors)[f := FieldError(f, values[f], values[Password])]
      ensures f == Password && values[f] != "" ==> passwordStrength == StrengthLabel(PasswordStrength(values[f]))
      ensures !(f == Password && values[f] != "") ==> passwordStrength == old(passwordStrength)
    {
      touched := touched + {f};
      errors := errors[f := FieldError(f, values[f], values[Password])];
      if f == Password && values[f] != "" {
        passwordStrength := StrengthLabel(PasswordStrength(values[f]));
      }
    }

    /**
     * `handleRegister(id, nowIso)`: nothing happens unless the form is valid;
     * a taken username or e-mail writes nothing; otherwise the new user is
     * appended to `registeredUsers` and also stored as `currentUser`.
     */
    method HandleRegister(id: string, nowIso: string) returns (r: Option<Registration>)
      requires Valid()
      modifies storage
      ensures !IsFormValid() ==> r.None? && storage.data == old(storage.data)
      ensures IsFormValid() ==> r == Some(Register(UsersOrEmpty(old(storage.data)), NewUser(values, id, nowIso)))
      ensures IsFormValid() && !r.value.Registered? ==> storage.data == old(storage.data)
      ensures IsFormValid() && r.value.Registered? ==>
        storage.data == old(storage.data)[RegisteredUsersKey := UserList(r.value.users)]
                                         [CurrentUserKey := UserRecord(NewUser(values, id, nowIso))]
    {
      if !IsFormValid() {
        return None;
      }
      var candidate := NewUser(values, id, nowIso);
      var outcome := Register(UsersOrEmpty(storage.data), candidate);
      r := Some(outcome);
      if outcome.Registered? {
        storage.data := storage.data[RegisteredUsersKey := UserList(outcome.users)][CurrentUserKey := UserRecord(candidate)];
      }
    }
  }
}
