/**
 * The patient profile screen (screens/patient/PatientProfileScreen.tsx): the
 * user record in memory, loading it, editing one field, and the avatar
 * initials.
 */
module Profile {
  import opened Common
  import opened Text
  import opened Records
  import opened KeyValueStore

  /** The record the screen starts with: every text empty, no id or dates. */
  const EmptyProfile := User(None, "", "", "", "", "", "", "", None, None, None)

  /** `loadUserData`: a stored `currentUser` replaces the whole record; otherwise the record stays. */
  function LoadedUser(s: Store, current: User): (r: User)
    ensures CurrentUser(s).Some? ==> r == CurrentUser(s).value
    ensures CurrentUser(s).None? ==> r == current
  {
    var stored := CurrentUser(s);
    if stored.Some? then stored.value else current
  }

  /** The editable fields. */
  datatype ProfileField = Username | Name | Email | ContactNumber | Address | Birthday | Password

  /** The value of a field. */
  function FieldValue(u: User, f: ProfileField): string
  {
    match f
    case Username => u.username
    case Name => u.name
    case Email => u.email
    case ContactNumber => u.contactNumber
    case Address => u.address
    case Birthday => u.birthday
    case Password => u.password
  }

  /** `handleChange(field, value)`: the named field takes the value; every other field, and the fields not on the form, stay. */
  function HandleChange(u: User, f: ProfileField, value: string): (r: User)
    ensures FieldValue(r, f) == value
    ensures forall g :: g != f ==> FieldValue(r, g) == FieldValue(u, g)
    ensures r.id == u.id && r.registrationDate == u.registrationDate && r.role == u.role && r.phone == u.phone
  {
    match f
    case Username => u.(username := value)
    case Name => u.(name := value)
    case Email => u.(email := value)
    case ContactNumber => u.(contactNumber := value)
    case Address => u.(address := value)
    case Birthday => u.(birthday := value)
    case Password => u.(password := value)
  }

  /** Two edits of the same field: the last one wins. */
  lemma HandleChangeLastWins(u: User, f: ProfileField, a: string, b: string)
    ensures HandleChange(HandleChange(u, f, a), f, b) == HandleChange(u, f, b)
  {
  }

  /** Writing a field's own value back changes nothing. */
  lemma HandleChangeSameValue(u: User, f: ProfileField)
    ensures HandleChange(u, f, FieldValue(u, f)) == u
  {
  }

  /** Edits of different fields give the same record in either order. */
  lemma HandleChangeCommutes(u: User, f: ProfileField, g: ProfileField, a: string, b: string)
    requires f != g
    ensures HandleChange(HandleChange(u, f, a), g, b) == HandleChange(HandleChange(u, g, b), f, a)
  {
  }

  /**
   * `getInitials(fullName)`: 'U' for an empty or blank name; otherwise the
   * upper-cased first characters of the first two space-separated words of
   * the trimmed name, which starts with the name's first visible character.
   */
  function Initials(fullName: string): (r: string)
    ensures Trim(fullName) == "" ==> r == "U"
    ensures Trim(fullName) != "" ==> 1 <= |r| <= 2 && r[0] == UpperChar(Trim(fullName)[0])
    ensures forall i :: 0 <= i < |r| ==> !IsLower(r[i])
  {
    var t := Trim(fullName);
    if t == "" then "U"
    else
      assert t[0] != ' ' by {
        assert !IsSpace(t[0]);
      }
      FirstLetters(t)
  }

  /** A one-word name gives its first letter, upper-cased. */
  lemma InitialsOneWord(a: string)
    requires a != [] && ' ' !in a && !IsSpace(a[0]) && !IsSpace(a[|a| - 1])
    ensures Initials(a) == [UpperChar(a[0])]
  {
    TrimUntouched(a);
    FirstLettersOneWord(a);
  }

  /**
   * A name of two or more words separated by single spaces, without white
   * space at either end, gives the first letters of its first two words,
   * upper-cased.
   */
  lemma InitialsTwoWords(a: string, b: string, rest: string)
    requires a != [] && b != [] && ' ' !in a && ' ' !in b
    requires rest == [] || rest[0] == ' '
    requires !IsSpace(a[0]) && !IsSpace((b + rest)[|b + rest| - 1])
    ensures Initials(a + " " + b + rest) == [UpperChar(a[0]), UpperChar(b[0])]
  {
    var s := a + " " + b + rest;
    assert s[0] == a[0] && s[|s| - 1] == (b + rest)[|b + rest| - 1];
    TrimUntouched(s);
    FirstLettersTwoWords(a, b, rest);
  }

  /** The initials of the starting record, whose name is empty, are 'U'. */
  lemma EmptyProfileInitials()
    ensures Initials(EmptyProfile.name) == "U"
  {
  }

  /** Logging out removes `userRole` and `currentUser` and nothing else. */
  function Logout(s: Store): (r: Store)
    ensures CurrentUser(r).None? && UserRoleKey !in r && CurrentUserKey !in r
    ensures forall k :: k != CurrentUserKey && k != UserRoleKey ==> (k in r <==> k in s) && (k in r ==> r[k] == s[k])
  {
    s - {CurrentUserKey, UserRoleKey}
  }

  /** After logging out the profile keeps whatever record it had when it loads again. */
  lemma LoadAfterLogout(s: Store, current: User)
    ensures LoadedUser(Logout(s), current) == current
  {
  }
}
