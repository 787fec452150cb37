/**
 * The display helpers of `lib/supabase/utils.ts`: fallback chains that turn a
 * possibly missing user into the strings the pages show.
 */
module UserDisplay {
  import opened Wrappers

  /** A string field of a JavaScript object: missing (`undefined`), `null`, or a string. */
  datatype Field = Absent | Null | Present(text: string)

  /** The parts of a signed-in user the helpers read. */
  datatype User = User(id: string, email: Field, fullName: Field)

  const UnknownEmail: string := "Unknown"
  const DefaultName: string := "User"
  const NotSignedIn: string := "Not signed in"

  /** How a template string writes a missing value and a `null` one. */
  const UndefinedText: string := "undefined"
  const NullText: string := "null"

  /** A JavaScript string field is truthy when it is a string and not empty. */
  predicate Truthy(field: Field) {
    field.Present? && field.text != []
  }

  /** `isAuthenticated`: there is a user. */
  predicate IsAuthenticated(user: Option<User>) {
    user.Some?
  }

  /** `getUserEmail`: the email when it is truthy, otherwise "Unknown", also when there is no user. */
  function UserEmail(user: Option<User>): (email: string)
    ensures email != []
    ensures user.Some? && Truthy(user.value.email) ==> email == user.value.email.text
    ensures !(user.Some? && Truthy(user.value.email)) ==> email == UnknownEmail
  {
    if user.Some? && Truthy(user.value.email) then user.value.email.text else UnknownEmail
  }

  /** `getUserDisplayName`: the full name, else the email, else "User". */
  function DisplayName(user: Option<User>): (name: string)
    ensures name != []
    ensures user.Some? && Truthy(user.value.fullName) ==> name == user.value.fullName.text
    ensures user.Some? && !Truthy(user.value.fullName) && Truthy(user.value.email) ==> name == user.value.email.text
    ensures !(user.Some? && (Truthy(user.value.fullName) || Truthy(user.value.email))) ==> name == DefaultName
  {
    if user.Some? && Truthy(user.value.fullName) then user.value.fullName.text
    else if user.Some? && Truthy(user.value.email) then user.value.email.text
    else DefaultName
  }

  /** `${user.email}`: the email as it is, "undefined" when it is missing and "null" when it is `null`. */
  function EmailText(email: Field): string {
    match email
    case Present(e) => e
    case Absent => UndefinedText
    case Null => NullText
  }

  /** `formatUserDisplay`: "Not signed in", or the display name followed by the email in parentheses. */
  function FormatUserDisplay(user: Option<User>): (text: string)
    ensures user.None? ==> text == NotSignedIn
  {
    if user.None? then NotSignedIn
    else DisplayName(user) + " (" + EmailText(user.value.email) + ")"
  }

  // ---------------------------------------------------------------------------
  // Properties

  /** The display name is one of the user's own fields, or "User". */
  lemma DisplayNameIsAField(user: User)
    ensures var name := DisplayName(Some(user));
            name == DefaultName || user.fullName == Present(name) || user.email == Present(name)
  {
  }

  /** Without a full name, the display name and the email helper agree whenever the user has an email. */
  lemma DisplayNameFallsBackToEmail(user: User)
    requires !Truthy(user.fullName) && Truthy(user.email)
    ensures DisplayName(Some(user)) == UserEmail(Some(user))
  {
  }

  /** The formatted text starts with the display name and ends with the email in parentheses. */
  lemma FormatParts(user: User)
    ensures var text := FormatUserDisplay(Some(user));
            var name := DisplayName(Some(user));
            && |text| == |name| + |EmailText(user.email)| + 3
            && text[..|name|] == name
            && text[|name|..|name| + 2] == " ("
            && text[|name| + 2..|text| - 1] == EmailText(user.email)
            && text[|text| - 1] == ')'
  {
    var name := DisplayName(Some(user));
    var e := EmailText(user.email);
    var text := FormatUserDisplay(Some(user));
    assert text == name + " (" + e + ")";
    assert text[|name|..|name| + 2] == " (";
  }

  /** A signed-in user is never shown as "Not signed in": the formatted text always holds an opening parenthesis. */
  lemma FormatTellsSignedIn(user: Option<User>)
    ensures FormatUserDisplay(user) == NotSignedIn <==> !IsAuthenticated(user)
  {
    if user.Some? {
      var name := DisplayName(user);
      var text := FormatUserDisplay(user);
      FormatParts(user.value);
      assert text[|name| + 1] == '(';
      assert '(' !in NotSignedIn;
    }
  }
}
