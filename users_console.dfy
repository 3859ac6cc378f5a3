/** The checks the users screen makes before it calls the users endpoint
    (frontend/src/components/Users.js): the e-mail pattern, and the guards of
    "add user" and "save" with the body each sends. */
module UsersConsole {
  import opened Text
  import opened ConsoleData

  // ---- The e-mail pattern ----

  predicate IsLetter(c: char) { 'a' <= c <= 'z' || 'A' <= c <= 'Z' }

  /** `[a-zA-Z0-9._%+-]`: a character allowed before the '@'. */
  predicate IsLocalChar(c: char) {
    IsLetter(c) || IsDigit(c) || c == '.' || c == '_' || c == '%' || c == '+' || c == '-'
  }

  /** `[a-zA-Z0-9.-]`: a character allowed in the domain name. */
  predicate IsDomainChar(c: char) {
    IsLetter(c) || IsDigit(c) || c == '.' || c == '-'
  }

  predicate LocalChars(s: string) { forall k :: 0 <= k < |s| ==> IsLocalChar(s[k]) }
  predicate DomainChars(s: string) { forall k :: 0 <= k < |s| ==> IsDomainChar(s[k]) }
  predicate Letters(s: string) { forall k :: 0 <= k < |s| ==> IsLetter(s[k]) }

  /** The pattern `^[a-zA-Z0-9._%+-]+@[a-zA-Z0-9.-]+\.[a-zA-Z]{2,}$` matched
      with the '@' at `i` and the escaped dot at `j`. */
  ghost predicate PatternAt(s: string, i: int, j: int) {
    0 < i && i + 1 < j && j < |s| &&
    s[i] == '@' && s[j] == '.' &&
    LocalChars(s[..i]) && DomainChars(s[i + 1..j]) &&
    |s| - (j + 1) >= 2 && Letters(s[j + 1..])
  }

  /** The whole string matches the pattern, at some choice of '@' and dot. */
  ghost predicate MatchesPattern(s: string) {
    exists i, j :: PatternAt(s, i, j)
  }

  /** Index of the last `c` in `s`. */
  function LastIndexOf(s: string, c: char): (i: nat)
    requires c in s
    ensures i < |s| && s[i] == c && c !in s[i + 1..]
  {
    if s[|s| - 1] == c then |s| - 1
    else
      assert c in s[..|s| - 1] by {
        var k :| 0 <= k < |s| && s[k] == c;
        assert s[..|s| - 1][k] == c;
      }
      var i := LastIndexOf(s[..|s| - 1], c);
      assert s[i + 1..] == s[..|s| - 1][i + 1..] + [s[|s| - 1]];
      i
  }

  /** `validateEmail`: the part before the first '@' is a non-empty run of
      local characters, and what follows splits at its last dot into a
      non-empty domain name and at least two letters. */
  predicate ValidateEmail(s: string) {
    '@' in s &&
    var at := IndexOf(s, '@');
    var domain := s[at + 1..];
    at > 0 && LocalChars(s[..at]) && '.' in domain &&
    var dot := LastIndexOf(domain, '.');
    dot > 0 && DomainChars(domain[..dot]) &&
    |domain| - (dot + 1) >= 2 && Letters(domain[dot + 1..])
  }

  lemma ValidateEmailSound(s: string)
    requires ValidateEmail(s)
    ensures MatchesPattern(s)
  {
    var at := IndexOf(s, '@');
    var domain := s[at + 1..];
    var dot := LastIndexOf(domain, '.');
    var j := at + 1 + dot;
    assert domain[..dot] == s[at + 1..j];
    assert domain[dot + 1..] == s[j + 1..];
    assert PatternAt(s, at, j);
  }

  /** A `c` with none before it is the one `IndexOf` finds. */
  lemma {:induction false} IndexOfUnique(s: string, c: char, i: int)
    requires 0 <= i < |s| && s[i] == c
    requires forall k :: 0 <= k < i ==> s[k] != c
    ensures IndexOf(s, c) == i
  {
    if i > 0 {
      IndexOfUnique(s[1..], c, i - 1);
    }
  }

  /** A `c` with none after it is the one `LastIndexOf` finds. */
  lemma {:induction false} LastIndexOfUnique(s: string, c: char, i: int)
    requires 0 <= i < |s| && s[i] == c
    requires forall k :: i < k < |s| ==> s[k] != c
    ensures LastIndexOf(s, c) == i
  {
    if i < |s| - 1 {
      LastIndexOfUnique(s[..|s| - 1], c, i);
    }
  }

  /** In a match, the '@' is the first one in the string. */
  lemma PatternAtFirstAt(s: string, i: int, j: int)
    requires PatternAt(s, i, j)
    ensures '@' in s && IndexOf(s, '@') == i
  {
    forall k | 0 <= k < i
      ensures s[k] != '@'
    {
      assert s[..i][k] == s[k];
    }
    IndexOfUnique(s, '@', i);
  }

  /** In a match, the dot is the last one after the '@'. */
  lemma PatternAtLastDot(s: string, i: int, j: int)
    requires PatternAt(s, i, j)
    ensures '.' in s[i + 1..] && LastIndexOf(s[i + 1..], '.') == j - (i + 1)
  {
    var domain := s[i + 1..];
    forall k | j - (i + 1) < k < |domain|
      ensures domain[k] != '.'
    {
      assert domain[k] == s[j + 1..][k - (j - i)];
    }
    LastIndexOfUnique(domain, '.', j - (i + 1));
  }

  lemma ValidateEmailComplete(s: string, i: int, j: int)
    requires PatternAt(s, i, j)
    ensures ValidateEmail(s)
  {
    PatternAtDomain(s, i, j);
    ValidateEmailOfParts(s, i, j - (i + 1));
  }

  /** In a match, the domain splits at the pattern's dot into a name and letters. */
  lemma PatternAtDomain(s: string, i: int, j: int)
    requires PatternAt(s, i, j)
    ensures '@' in s && IndexOf(s, '@') == i
    ensures '.' in s[i + 1..] && LastIndexOf(s[i + 1..], '.') == j - (i + 1)
    ensures DomainChars(s[i + 1..][..j - (i + 1)])
    ensures Letters(s[i + 1..][j - i..])
  {
    PatternAtFirstAt(s, i, j);
    PatternAtLastDot(s, i, j);
    assert s[i + 1..][..j - (i + 1)] == s[i + 1..j];
    assert s[i + 1..][j - i..] == s[j + 1..];
  }

  /** The validator's conditions, taken one by one. */
  lemma ValidateEmailOfParts(s: string, at: int, dot: int)
    requires '@' in s && IndexOf(s, '@') == at && at > 0 && LocalChars(s[..at])
    requires '.' in s[at + 1..] && LastIndexOf(s[at + 1..], '.') == dot && dot > 0
    requires DomainChars(s[at + 1..][..dot])
    requires |s[at + 1..]| - (dot + 1) >= 2 && Letters(s[at + 1..][dot + 1..])
    ensures ValidateEmail(s)
  {
  }

  /** `validateEmail` accepts exactly the strings the pattern matches. */
  lemma ValidateEmailMatchesPattern(s: string)
    ensures ValidateEmail(s) <==> MatchesPattern(s)
  {
    if ValidateEmail(s) {
      ValidateEmailSound(s);
    }
    if MatchesPattern(s) {
      var i, j :| PatternAt(s, i, j);
      ValidateEmailComplete(s, i, j);
    }
  }

  /** In a match, the '@' at `i` is the only one. */
  lemma PatternAtOneAt(s: string, i: int, j: int)
    requires PatternAt(s, i, j)
    ensures forall k :: 0 <= k < |s| && s[k] == '@' ==> k == i
  {
    forall k | 0 <= k < |s| && k != i
      ensures s[k] != '@'
    {
      if k < i {
        assert s[..i][k] == s[k];
      } else if k < j {
        assert s[i + 1..j][k - (i + 1)] == s[k];
      } else if k > j {
        assert s[j + 1..][k - (j + 1)] == s[k];
      }
    }
  }

  /** An accepted address holds exactly one '@'. */
  lemma ValidEmailHasOneAt(s: string)
    requires ValidateEmail(s)
    ensures forall k :: 0 <= k < |s| && s[k] == '@' ==> k == IndexOf(s, '@')
  {
    ValidateEmailSound(s);
    var i, j :| PatternAt(s, i, j);
    PatternAtFirstAt(s, i, j);
    PatternAtOneAt(s, i, j);
  }

  /** The alert's own example passes. */
  lemma GmailAddressAccepted()
    ensures MatchesPattern("user@gmail.com")
  {
    var s := "user@gmail.com";
    assert s[..4] == "user" && s[5..10] == "gmail" && s[11..] == "com";
    assert PatternAt(s, 4, 10);
  }

  /** A one-letter top-level domain does not. */
  lemma OneLetterDomainRejected()
    ensures !MatchesPattern("a@b.c")
  {
  }

  // ---- "Add user" ----

  const InvalidEmailAlert := "Invalid email format! Email must contain @ and domain (e.g., user@gmail.com)"

  /** The add form, as typed. The id is any string, a superset of what the
      form's number input hands over ("" or the text of a valid number). */
  datatype UserForm = UserForm(id: string, name: string, email: string)

  /** The `id` of the body: left out, sent as JSON null (a NaN), or a number. */
  datatype SentId = Omitted | SentNull | SentInt(n: int)

  datatype NewUser = NewUser(name: string, email: string, id: SentId)

  /** `createUser`'s checks, in order: name and e-mail given, e-mail valid,
      and a typed id not zero or below. A blank id is left out; one that
      `parseInt` cannot read goes out as null. */
  function CreateUserClick(form: UserForm): ClickResult<NewUser> {
    if form.name == "" || form.email == "" then Alert("Please enter name and email!")
    else if !ValidateEmail(form.email) then Alert(InvalidEmailAlert)
    else if form.id != "" && Strip(form.id) != "" then
      var id := JsParseInt(form.id);
      if id.Some? && id.value <= 0 then Alert("ID must be positive!")
      else Call(NewUser(form.name, form.email, if id.Some? then SentInt(id.value) else SentNull))
    else Call(NewUser(form.name, form.email, Omitted))
  }

  /** The add call is made exactly when name and e-mail are given, the e-mail
      matches the pattern and the id, if typed, is not read as zero or below;
      it carries the id only when one was typed. */
  lemma CreateUserClickGuards(form: UserForm)
    ensures CreateUserClick(form).Call? <==>
      (form.name != "" && form.email != "" && MatchesPattern(form.email) &&
       !(Strip(form.id) != "" && JsParseInt(form.id).Some? && JsParseInt(form.id).value <= 0))
    ensures CreateUserClick(form).Call? ==>
      CreateUserClick(form).payload.name == form.name &&
      CreateUserClick(form).payload.email == form.email &&
      (CreateUserClick(form).payload.id.Omitted? <==> Strip(form.id) == "") &&
      (Strip(form.id) != "" ==>
         CreateUserClick(form).payload.id ==
           (if JsParseInt(form.id).Some? then SentInt(JsParseInt(form.id).value) else SentNull))
  {
    ValidateEmailMatchesPattern(form.email);
    if form.id == "" {
      assert Strip(form.id) == "";
    }
  }

  /** Which alert a refused add shows: the checks run in `createUser`'s
      order, so a form failing several gets the first one's alert. */
  lemma CreateUserClickAlerts(form: UserForm)
    ensures (form.name == "" || form.email == "") ==>
      CreateUserClick(form) == Alert("Please enter name and email!")
    ensures (form.name != "" && form.email != "" && !MatchesPattern(form.email)) ==>
      CreateUserClick(form) == Alert(InvalidEmailAlert)
    ensures (form.name != "" && form.email != "" && MatchesPattern(form.email) &&
             Strip(form.id) != "" && JsParseInt(form.id).Some? && JsParseInt(form.id).value <= 0) ==>
      CreateUserClick(form) == Alert("ID must be positive!")
  {
    ValidateEmailMatchesPattern(form.email);
    if form.id == "" {
      assert Strip(form.id) == "";
    }
  }

  /** Typing a positive number as the id sends exactly that number. */
  lemma CreateUserSendsTypedId(name: string, email: string, n: int)
    requires name != "" && MatchesPattern(email) && n > 0
    ensures CreateUserClick(UserForm(IntToString(n), name, email)) == Call(NewUser(name, email, SentInt(n)))
  {
    ValidateEmailMatchesPattern(email);
    IntToStringPlain(n);
    JsParseIntOfIntToString(n);
  }

  /** An id with a leading space is still read by `parseInt`. The form's id
      field is a number input, which hands `createUser` only "" or the text of
      a valid number; the model takes any string, so this input is one the
      handler accepts but the screen does not produce. */
  lemma CreateUserSendsPaddedId(name: string, email: string)
    requires name != "" && MatchesPattern(email)
    ensures CreateUserClick(UserForm(" 7", name, email)) == Call(NewUser(name, email, SentInt(7)))
  {
    ValidateEmailMatchesPattern(email);
    PaddedSevenReads();
  }

  lemma PaddedSevenReads()
    ensures Strip(" 7") == "7" && JsParseInt(" 7") == Some(7)
  {
    var id := " 7";
    assert IsSpace(id[0]) && id[1..] == "7";
    var seven := "7";
    assert !IsSpace(seven[0]) && IsDigit(seven[0]) && seven[1..] == [];
    assert TrimStart(seven) == seven && TrimEnd(seven) == seven;
    assert TrimStart(id) == seven;
    assert DigitPrefix(seven) == seven;
    assert DigitsToNat(seven) == 7;
  }

  /** An id `parseInt` cannot read goes out as null. As above, the number
      input does not produce "x"; this is the handler on any string. */
  lemma CreateUserSendsNaNId(name: string, email: string)
    requires name != "" && MatchesPattern(email)
    ensures CreateUserClick(UserForm("x", name, email)) == Call(NewUser(name, email, SentNull))
  {
    ValidateEmailMatchesPattern(email);
    var id := "x";
    assert !IsSpace(id[0]) && !IsDigit(id[0]);
    assert TrimStart(id) == id && TrimEnd(id) == id;
    assert DigitPrefix(id) == [];
  }

  // ---- Editing a user ----

  /** The edit form: the id starts as the stored number and becomes text once typed in. */
  datatype UserEditForm = UserEditForm(id: FormValue, name: string, email: string)

  /** `startEdit(user)`. */
  function StartUserEdit(u: User): (r: UserEditForm)
    ensures ParseValue(r.id) == Some(u.id) && r.name == u.name && r.email == u.email
  {
    UserEditForm(Num(u.id), u.name, u.email)
  }

  /** The call `saveEdit` makes: the user being edited and the new values. */
  datatype UserUpdate = UserUpdate(target: int, id: Option<int>, name: string, email: string)

  /** `saveEdit`'s checks, in order: every field given, e-mail valid, id not zero or below. */
  function SaveUserClick(editingId: int, form: UserEditForm): ClickResult<UserUpdate> {
    if form.name == "" || form.email == "" || !FilledIn(form.id) then Alert("Please fill all fields!")
    else if !ValidateEmail(form.email) then Alert(InvalidEmailAlert)
    else if ParseValue(form.id).Some? && ParseValue(form.id).value <= 0 then Alert("ID must be positive!")
    else Call(UserUpdate(editingId, ParseValue(form.id), form.name, form.email))
  }

  /** The save call is made exactly when all fields are filled in, the e-mail
      matches the pattern and the id is not read as zero or below; it goes to
      the user being edited. */
  lemma SaveUserClickGuards(editingId: int, form: UserEditForm)
    ensures SaveUserClick(editingId, form).Call? <==>
      (form.name != "" && form.email != "" && FilledIn(form.id) && MatchesPattern(form.email) &&
       !(ParseValue(form.id).Some? && ParseValue(form.id).value <= 0))
    ensures SaveUserClick(editingId, form).Call? ==>
      SaveUserClick(editingId, form).payload == UserUpdate(editingId, ParseValue(form.id), form.name, form.email)
  {
    ValidateEmailMatchesPattern(form.email);
  }

  /** Which alert a refused save shows: the checks run in `saveEdit`'s
      order, so a form failing several gets the first one's alert. */
  lemma SaveUserClickAlerts(editingId: int, form: UserEditForm)
    ensures (form.name == "" || form.email == "" || !FilledIn(form.id)) ==>
      SaveUserClick(editingId, form) == Alert("Please fill all fields!")
    ensures (form.name != "" && form.email != "" && FilledIn(form.id) && !MatchesPattern(form.email)) ==>
      SaveUserClick(editingId, form) == Alert(InvalidEmailAlert)
    ensures (form.name != "" && form.email != "" && FilledIn(form.id) && MatchesPattern(form.email) &&
             ParseValue(form.id).Some? && ParseValue(form.id).value <= 0) ==>
      SaveUserClick(editingId, form) == Alert("ID must be positive!")
  {
    ValidateEmailMatchesPattern(form.email);
  }

  /** Opening a well-formed user for editing and saving at once sends the user back unchanged. */
  lemma SaveUnchangedUser(u: User)
    requires u.id > 0 && u.name != "" && MatchesPattern(u.email)
    ensures SaveUserClick(u.id, StartUserEdit(u)) == Call(UserUpdate(u.id, Some(u.id), u.name, u.email))
  {
    ValidateEmailMatchesPattern(u.email);
  }
}
