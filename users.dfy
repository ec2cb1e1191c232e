/** `UserService` of backend/user_service.py over an in-memory `users`
    table: registration with its checks in a fixed order, authentication
    that hides the secret columns, and profile updates built into an
    `UPDATE ... SET` statement. A table row is a map from column name to
    its text. Password hashing is a parameter (`kdf`, `verify`), and the
    random salt is given by the caller. */
module Users {
  import opened Text
  import opened Security

  /** The keys of a form or a row: the table's columns, the form's
      password, and any other name a form may carry. */
  datatype Field =
    | Id | FirstName | LastName | Username | Email | Phone | Address | Pincode
    | PasswordHash | Salt | Password | Other(name: string)

  /** The key as the dictionaries and the SQL text spell it. */
  function Name(f: Field): string
  {
    match f
    case Id => "id"
    case FirstName => "first_name"
    case LastName => "last_name"
    case Username => "username"
    case Email => "email"
    case Phone => "phone"
    case Address => "address"
    case Pincode => "pincode"
    case PasswordHash => "password_hash"
    case Salt => "salt"
    case Password => "password"
    case Other(n) => n
  }

  /** A row of `users`, or a submitted form. */
  type Row = map<Field, string>

  /** The columns of the `users` table. */
  const Columns: set<Field> :=
    {Id, FirstName, LastName, Username, Email, Phone, Address, Pincode, PasswordHash, Salt}

  /** The columns `authenticate_user` removes before returning a row. */
  const Secret: set<Field> := {PasswordHash, Salt}

  /** The fields a registration must fill, checked in this order. */
  const RequiredFields: seq<Field> := [FirstName, LastName, Username, Email, Phone, Password]

  // ---------------------------------------------------------------------
  // register_user
  // ---------------------------------------------------------------------

  /** `user_data.get(field)` is truthy: the key is there and not empty. */
  predicate Filled(data: Row, field: Field)
  {
    field in data && data[field] != ""
  }

  /** The first field of `fields` that is not filled. */
  function FirstMissing(data: Row, fields: seq<Field>): (r: Option<Field>)
    ensures r.None? <==> forall j :: 0 <= j < |fields| ==> Filled(data, fields[j])
    ensures r.Some? ==> r.value in fields && !Filled(data, r.value)
  {
    if fields == [] then None
    else if !Filled(data, fields[0]) then Some(fields[0])
    else FirstMissing(data, fields[1..])
  }

  /** Every required field is filled. */
  predicate RequiredFilled(data: Row)
  {
    Filled(data, FirstName) && Filled(data, LastName) && Filled(data, Username)
    && Filled(data, Email) && Filled(data, Phone) && Filled(data, Password)
  }

  /** The required-field loop finds nothing exactly when all six are filled. */
  lemma RequiredFilledIff(data: Row)
    ensures FirstMissing(data, RequiredFields).None? <==> RequiredFilled(data)
  {
    if FirstMissing(data, RequiredFields).None? {
      assert Filled(data, RequiredFields[0]) && Filled(data, RequiredFields[1]) && Filled(data, RequiredFields[2]);
      assert Filled(data, RequiredFields[3]) && Filled(data, RequiredFields[4]) && Filled(data, RequiredFields[5]);
    }
  }

  /** The field reported is the first unfilled one in the list's order. */
  lemma {:induction false} FirstMissingIsFirst(data: Row, fields: seq<Field>)
    ensures FirstMissing(data, fields).Some? ==>
              exists j :: 0 <= j < |fields| && fields[j] == FirstMissing(data, fields).value
                          && forall m :: 0 <= m < j ==> Filled(data, fields[m])
  {
    if fields != [] && Filled(data, fields[0]) && FirstMissing(data, fields[1..]).Some? {
      FirstMissingIsFirst(data, fields[1..]);
      var j :| 0 <= j < |fields[1..]| && fields[1..][j] == FirstMissing(data, fields[1..]).value
               && forall m :: 0 <= m < j ==> Filled(data, fields[1..][m]);
      assert fields[j + 1] == FirstMissing(data, fields).value;
      forall m | 0 <= m < j + 1 ensures Filled(data, fields[m]) {
        if m > 0 { assert fields[m] == fields[1..][m - 1]; }
      }
    } else if fields != [] && !Filled(data, fields[0]) {
      assert fields[0] == FirstMissing(data, fields).value;
    }
  }

  /** How `str.title()` treats one character: a non-letter is kept, a
      letter is lower-cased when a letter comes right before it and
      upper-cased otherwise. */
  function TitleChar(c: char, afterLetter: bool): char
  {
    if !IsLetter(c) then c else if afterLetter then LowerChar(c) else UpperChar(c)
  }

  /** Whether a letter comes right before position `i` of `s`; before the
      first character that is `afterLetter`. */
  predicate LetterBefore(s: string, i: int, afterLetter: bool)
    requires 0 <= i <= |s|
  {
    if i == 0 then afterLetter else IsLetter(s[i - 1])
  }

  /** Python's `str.title()` on ASCII; `afterLetter` says whether a letter
      came before `s`. */
  function TitleFrom(s: string, afterLetter: bool): (r: string)
    ensures |r| == |s|
    ensures forall i :: 0 <= i < |s| ==> (IsLetter(r[i]) <==> IsLetter(s[i]))
    ensures forall i :: 0 <= i < |s| && !IsLetter(s[i]) ==> r[i] == s[i]
    ensures |s| > 0 && IsLetter(s[0]) && !afterLetter ==> IsUpper(r[0])
  {
    if s == [] then []
    else [TitleChar(s[0], afterLetter)] + TitleFrom(s[1..], IsLetter(s[0]))
  }

  /** Character by character, each character is treated by what comes
      right before it. */
  lemma {:induction false} TitleFromChars(s: string, afterLetter: bool)
    ensures forall i :: 0 <= i < |s| ==>
              TitleFrom(s, afterLetter)[i] == TitleChar(s[i], LetterBefore(s, i, afterLetter))
  {
    if s != [] {
      var rest := s[1..];
      TitleFromChars(rest, IsLetter(s[0]));
      forall i | 0 <= i < |s|
        ensures TitleFrom(s, afterLetter)[i] == TitleChar(s[i], LetterBefore(s, i, afterLetter))
      {
        if i > 0 {
          assert TitleFrom(s, afterLetter)[i] == TitleFrom(rest, IsLetter(s[0]))[i - 1];
          assert rest[i - 1] == s[i];
          if i > 1 {
            assert rest[i - 2] == s[i - 1];
          }
        }
      }
    }
  }

  function Title(s: string): string
  {
    TitleFrom(s, false)
  }

  /** `field.replace('_', ' ').title()`. */
  function Label(field: Field): (r: string)
    ensures |r| == |Name(field)|
    ensures forall i :: 0 <= i < |r| ==> r[i] != '_'
    ensures forall i :: 0 <= i < |r| ==>
              (Name(field)[i] == '_' ==> r[i] == ' ') &&
              (IsLetter(r[i]) <==> IsLetter(Name(field)[i]))
  {
    Title(Replace(Name(field), "_", " "))
  }

  /** The label of a key without an underscore keeps its length and starts
      with a capital. */
  lemma LabelShape(field: Field)
    requires '_' !in Name(field) && Name(field) != "" && IsLower(Name(field)[0])
    ensures |Label(field)| == |Name(field)|
    ensures IsUpper(Label(field)[0])
  {
    ReplaceAbsent(Name(field));
  }

  /** The message for a missing first name reads "First Name is required". */
  lemma LabelFirstName()
    ensures Label(FirstName) == "First Name"
  {
    TwoWordKey(FirstName, "first", "name");
    LabelOfTwoWords(FirstName, "first", "name");
    Capitalised("first", "First");
    Capitalised("name", "Name");
    SpacedText("First", "Name", "First Name");
  }

  /** The message for a missing last name reads "Last Name is required". */
  lemma LabelLastName()
    ensures Label(LastName) == "Last Name"
  {
    TwoWordKey(LastName, "last", "name");
    LabelOfTwoWords(LastName, "last", "name");
    Capitalised("last", "Last");
    Capitalised("name", "Name");
    SpacedText("Last", "Name", "Last Name");
  }

  /** The two keys spelt as two lower-case words joined by an underscore. */
  lemma TwoWordKey(field: Field, a: string, b: string)
    requires (field == FirstName && a == "first" && b == "name") ||
             (field == LastName && a == "last" && b == "name")
    ensures Name(field) == a + "_" + b
    ensures a != [] && forall i :: 0 <= i < |a| ==> IsLower(a[i])
    ensures b != [] && forall i :: 0 <= i < |b| ==> IsLower(b[i])
  {
  }

  /** The label of a key made of two lower-case words joined by an
      underscore is the two words, capitalised, joined by a space. */
  lemma LabelOfTwoWords(field: Field, a: string, b: string)
    requires Name(field) == a + "_" + b
    requires a != [] && forall i :: 0 <= i < |a| ==> IsLower(a[i])
    requires b != [] && forall i :: 0 <= i < |b| ==> IsLower(b[i])
    ensures Label(field) == ([UpperChar(a[0])] + a[1..]) + " " + ([UpperChar(b[0])] + b[1..])
  {
    UnderscoreToSpace(a, b);
    TitleTwoWords(a, b);
  }

  lemma Capitalised(w: string, c: string)
    requires (w == "first" && c == "First") || (w == "last" && c == "Last") || (w == "name" && c == "Name")
    ensures [UpperChar(w[0])] + w[1..] == c
  {
  }

  lemma SpacedText(a: string, b: string, t: string)
    requires (a == "First" && b == "Name" && t == "First Name") ||
             (a == "Last" && b == "Name" && t == "Last Name")
    ensures a + " " + b == t
  {
  }

  /** Two lower-case words joined by an underscore become the same words
      joined by a space. */
  lemma UnderscoreToSpace(a: string, b: string)
    requires forall i :: 0 <= i < |a| ==> IsLower(a[i])
    requires forall i :: 0 <= i < |b| ==> IsLower(b[i])
    ensures Replace(a + "_" + b, "_", " ") == a + " " + b
  {
    var s, t := a + "_" + b, a + " " + b;
    var r := Replace(s, "_", " ");
    forall i | 0 <= i < |s| ensures r[i] == t[i] {
      if i < |a| {
        assert s[i] == a[i] && t[i] == a[i];
      } else if i > |a| {
        assert s[i] == b[i - |a| - 1] && t[i] == b[i - |a| - 1];
      }
    }
  }

  /** Title-casing two lower-case words joined by a space capitalises the
      first letter of each and keeps the rest. */
  lemma TitleTwoWords(a: string, b: string)
    requires a != [] && b != []
    requires forall i :: 0 <= i < |a| ==> IsLower(a[i])
    requires forall i :: 0 <= i < |b| ==> IsLower(b[i])
    ensures Title(a + " " + b) == ([UpperChar(a[0])] + a[1..]) + " " + ([UpperChar(b[0])] + b[1..])
  {
    var s := a + " " + b;
    var t := ([UpperChar(a[0])] + a[1..]) + " " + ([UpperChar(b[0])] + b[1..]);
    TitleFromChars(s, false);
    forall i | 0 <= i < |s| ensures Title(s)[i] == t[i] {
      if i < |a| {
        assert s[i] == a[i];
      } else if i > |a| {
        assert s[i] == b[i - |a| - 1];
      }
    }
  }

  lemma {:induction false} ReplaceAbsent(s: string)
    requires '_' !in s
    ensures Replace(s, "_", " ") == s
  {
    if |s| >= 1 {
      assert s[..1] != "_" by { assert s[..1][0] == s[0]; }
      ReplaceAbsent(s[1..]);
      assert [s[0]] + s[1..] == s;
    }
  }

  /** A row of the `users` table; `id` is kept as its text. */
  datatype User = User(
    id: string,
    firstName: string,
    lastName: string,
    username: string,
    email: string,
    phone: string,
    address: string,
    pincode: string,
    passwordHash: string,
    salt: string)

  /** The text of one column of a row; keys that are not columns read as "". */
  function ColumnText(u: User, f: Field): string
  {
    match f
    case Id => u.id
    case FirstName => u.firstName
    case LastName => u.lastName
    case Username => u.username
    case Email => u.email
    case Phone => u.phone
    case Address => u.address
    case Pincode => u.pincode
    case PasswordHash => u.passwordHash
    case Salt => u.salt
    case _ => ""
  }

  /** A row as the dictionary `SELECT *` returns. */
  function AsRow(u: User): (r: Row)
    ensures r.Keys == Columns
  {
    map f | f in Columns :: ColumnText(u, f)
  }

  /** Some row already has this email or this username. */
  predicate Taken(users: seq<User>, email: string, username: string)
  {
    exists i :: 0 <= i < |users| && (users[i].email == email || users[i].username == username)
  }

  /** `data.get(key, '')`. */
  function GetOr(data: Row, key: Field): string
  {
    if key in data then data[key] else ""
  }

  /** The row `register_user` inserts: names and username cut to 255,
      address to 500, pincode to 10, all of them without brackets; email
      and phone as given; the password only as its hash under the salt. */
  function NewUser(data: Row, id: int, salt: string, kdf: (string, string) -> string): (u: User)
    requires RequiredFilled(data)
    ensures |u.firstName| <= 255 && |u.lastName| <= 255 && |u.username| <= 255
    ensures |u.address| <= 500 && |u.pincode| <= 10
    ensures '<' !in u.firstName && '>' !in u.firstName && '<' !in u.lastName && '>' !in u.lastName
    ensures '<' !in u.username && '>' !in u.username
    ensures '<' !in u.address && '>' !in u.address && '<' !in u.pincode && '>' !in u.pincode
    ensures u.email == data[Email] && u.phone == data[Phone]
    ensures u.passwordHash == kdf(data[Password], salt) && u.salt == salt
    ensures u.firstName == SanitizeInput(Some(data[FirstName]), 255)
    ensures u.lastName == SanitizeInput(Some(data[LastName]), 255)
    ensures u.username == SanitizeInput(Some(data[Username]), 255)
    ensures u.address == SanitizeInput(Some(GetOr(data, Address)), 500)
    ensures u.pincode == SanitizeInput(Some(GetOr(data, Pincode)), 10)
  {
    User(IntText(id),
         SanitizeInput(Some(data[FirstName]), 255),
         SanitizeInput(Some(data[LastName]), 255),
         SanitizeInput(Some(data[Username]), 255),
         data[Email],
         data[Phone],
         SanitizeInput(Some(GetOr(data, Address)), 500),
         SanitizeInput(Some(GetOr(data, Pincode)), 10),
         kdf(data[Password], salt),
         salt)
  }

  /** The decision `register_user` takes: the error it reports, or the row
      it inserts. */
  function RegisterOutcome(users: seq<User>, data: Row, id: int, salt: string,
                           kdf: (string, string) -> string): (r: Result<User, string>)
    ensures r.Ok? ==> RequiredFilled(data) && ValidateEmail(data[Email]) && ValidatePhone(data[Phone])
                      && !Taken(users, data[Email], data[Username])
                      && r.value == NewUser(data, id, salt, kdf)
    ensures FirstMissing(data, RequiredFields).Some? ==>
              r == Err(Label(FirstMissing(data, RequiredFields).value) + " is required")
  {
    match FirstMissing(data, RequiredFields)
    case Some(field) => Err(Label(field) + " is required")
    case None =>
      RequiredFilledIff(data);
      if !ValidateEmail(data[Email]) then Err("Invalid email format")
      else if !ValidatePhone(data[Phone]) then Err("Invalid phone number format")
      else if Taken(users, data[Email], data[Username]) then
        Err("User with this email or username already exists")
      else Ok(NewUser(data, id, salt, kdf))
  }

  /** The checks run in their order: the first empty required field, then
      the email format, then the phone format, then the uniqueness of both
      email and username. Registration succeeds exactly when all pass. */
  lemma RegisterCheckOrder(users: seq<User>, data: Row, id: int, salt: string, kdf: (string, string) -> string)
    ensures var o := RegisterOutcome(users, data, id, salt, kdf);
            !RequiredFilled(data) ==>
              FirstMissing(data, RequiredFields).Some?
              && o == Err(Label(FirstMissing(data, RequiredFields).value) + " is required")
    ensures var o := RegisterOutcome(users, data, id, salt, kdf);
            RequiredFilled(data) ==>
              (!ValidateEmail(data[Email]) ==> o == Err("Invalid email format"))
              && (ValidateEmail(data[Email]) && !ValidatePhone(data[Phone]) ==> o == Err("Invalid phone number format"))
              && (ValidateEmail(data[Email]) && ValidatePhone(data[Phone]) && Taken(users, data[Email], data[Username])
                  ==> o == Err("User with this email or username already exists"))
    ensures RegisterOutcome(users, data, id, salt, kdf).Ok? <==>
              RequiredFilled(data) && ValidateEmail(data[Email]) && ValidatePhone(data[Phone])
              && !Taken(users, data[Email], data[Username])
  {
    RequiredFilledIff(data);
  }

  /** The uniqueness lookup compares the username as submitted, before it
      is sanitised: with `u` stored, `u + " "` passes the lookup and the new
      row then holds `u` as well. This holds where the database compares
      text exactly; under a collation that ignores trailing blanks the
      lookup finds the stored row and the registration is refused. */
  lemma RawUsernameCheck(users: seq<User>, data: Row, id: int, salt: string,
                         kdf: (string, string) -> string, u: string)
    requires u != "" && Trimmed(u) && '<' !in u && '>' !in u && |u| < 255
    requires RequiredFilled(data) && ValidateEmail(data[Email]) && ValidatePhone(data[Phone])
    requires forall i :: 0 <= i < |users| ==> users[i].email != data[Email] && users[i].username == u
    requires data[Username] == u + " "
    ensures RegisterOutcome(users, data, id, salt, kdf).Ok?
    ensures RegisterOutcome(users, data, id, salt, kdf).value.username == u
  {
    RequiredFilledIff(data);
    assert !Taken(users, data[Email], data[Username]) by {
      assert |u + " "| != |u|;
    }
    SanitizeOneTrailingSpace(u);
  }

  /** A clean, trimmed text with one space added sanitises back to itself. */
  lemma SanitizeOneTrailingSpace(u: string)
    requires u != "" && Trimmed(u) && '<' !in u && '>' !in u && |u| < 255
    ensures SanitizeInput(Some(u + " "), 255) == u
  {
    var t := u + " ";
    RemoveAllAbsent(t, {'<', '>'});
    assert PyPrefix(t, 255) == t;
    assert LeadingSpace(t) == 0 by { assert t[0] == u[0]; }
    assert t[0..] == t;
    assert TrailingSpace(t) == 1 by {
      assert t[..|t| - 1] == u;
    }
  }

  // ---------------------------------------------------------------------
  // authenticate_user
  // ---------------------------------------------------------------------

  /** The first row whose email is `email` (`result[0]`), or -1. */
  function FirstWithEmail(users: seq<User>, email: string): (i: int)
    ensures -1 <= i < |users|
    ensures i >= 0 ==> users[i].email == email
    ensures forall j :: 0 <= j < |users| && (i < 0 || j < i) ==> users[j].email != email
  {
    if users == [] then -1
    else if users[0].email == email then 0
    else
      var i := FirstWithEmail(users[1..], email);
      if i < 0 then -1 else i + 1
  }

  /** `authenticate_user`: the email is sanitised to 255 characters and must
      be valid; the first row with that email must verify the password; the
      row is then returned without its secret columns. */
  function AuthenticateUser(users: seq<User>, email: string, password: string,
                            verify: (string, string, string) -> bool): (r: Option<Row>)
    ensures var e := SanitizeInput(Some(email), 255);
            var i := FirstWithEmail(users, e);
            r.Some? <==> ValidateEmail(e) && i >= 0 && verify(password, users[i].passwordHash, users[i].salt)
    ensures r.Some? ==>
              var row := AsRow(users[FirstWithEmail(users, SanitizeInput(Some(email), 255))]);
              && (forall k :: k in r.value <==> k in row && k !in Secret)
              && (forall k :: k in r.value ==> r.value[k] == row[k])
  {
    var e := SanitizeInput(Some(email), 255);
    if !ValidateEmail(e) then None
    else
      var i := FirstWithEmail(users, e);
      if i < 0 then None
      else if verify(password, users[i].passwordHash, users[i].salt) then
        var row := AsRow(users[i]);
        Some(map k | k in row && k !in Secret :: row[k])
      else None
  }

  /** No successful login hands out a password hash or a salt, and every
      other column of the row is in the result. */
  lemma AuthenticateHidesSecrets(users: seq<User>, email: string, password: string,
                                 verify: (string, string, string) -> bool)
    ensures var r := AuthenticateUser(users, email, password, verify);
            r.Some? ==> PasswordHash !in r.value && Salt !in r.value
                        && r.value.Keys == Columns - Secret
  {
  }

  // ---------------------------------------------------------------------
  // update_user_profile
  // ---------------------------------------------------------------------

  /** The value stored under `key` in a list of pairs, the first one if
      any: a dictionary in its insertion order. Keys are the strings the
      caller sent. */
  function Lookup(pairs: seq<(string, string)>, key: string): (r: Option<string>)
    ensures r.None? <==> forall i :: 0 <= i < |pairs| ==> pairs[i].0 != key
    ensures r.Some? ==> (key, r.value) in pairs
  {
    if pairs == [] then None
    else if pairs[0].0 == key then Some(pairs[0].1)
    else Lookup(pairs[1..], key)
  }

  /** The validation of `update_user_profile`: a value under the key
      "email", then one under "phone", must be well formed. */
  function UpdateCheck(updates: seq<(string, string)>): (r: Option<string>)
    ensures r == Some("Invalid email format") <==>
              Lookup(updates, "email").Some? && !ValidateEmail(Lookup(updates, "email").value)
    ensures r == Some("Invalid phone number format") <==>
              (Lookup(updates, "email").Some? ==> ValidateEmail(Lookup(updates, "email").value))
              && Lookup(updates, "phone").Some? && !ValidatePhone(Lookup(updates, "phone").value)
    ensures r.Some? ==> r == Some("Invalid email format") || r == Some("Invalid phone number format")
  {
    if Lookup(updates, "email").Some? && !ValidateEmail(Lookup(updates, "email").value) then
      Some("Invalid email format")
    else if Lookup(updates, "phone").Some? && !ValidatePhone(Lookup(updates, "phone").value) then
      Some("Invalid phone number format")
    else None
  }

  /** The key spellings whose values are sanitised on update. */
  const ProfileKeys: seq<string> := ["first_name", "last_name", "username", "address", "pincode"]

  /** One value as it is written: a key spelled exactly as one of the five
      profile keys is sanitised (address to 500 characters, the others to
      255), any other key passes through. */
  function SanitizeUpdate(key: string, value: string): (r: string)
    ensures key !in ProfileKeys ==> r == value
    ensures key in ProfileKeys ==> r == SanitizeInput(Some(value), if key == "address" then 500 else 255)
    ensures key in ProfileKeys ==> '<' !in r && '>' !in r && Trimmed(r)
    ensures key in ProfileKeys && key != "address" ==> |r| <= 255
    ensures key == "address" ==> |r| <= 500
  {
    if key in ProfileKeys then SanitizeInput(Some(value), if key != "address" then 255 else 500)
    else value
  }

  /** `sanitized_updates` after the loop, in the order of `updates`. */
  function SanitizedUpdates(updates: seq<(string, string)>): (r: seq<(string, string)>)
    ensures |r| == |updates|
    ensures forall i :: 0 <= i < |updates| ==> r[i] == (updates[i].0, SanitizeUpdate(updates[i].0, updates[i].1))
  {
    if updates == [] then []
    else SanitizedUpdates(updates[..|updates| - 1])
         + [(updates[|updates| - 1].0, SanitizeUpdate(updates[|updates| - 1].0, updates[|updates| - 1].1))]
  }

  /** One `"k = %s"` per key, the key pasted in as sent. */
  function Assignments(pairs: seq<(string, string)>): (r: seq<string>)
    ensures |r| == |pairs|
    ensures forall i :: 0 <= i < |pairs| ==> r[i] == pairs[i].0 + " = %s"
  {
    if pairs == [] then [] else [pairs[0].0 + " = %s"] + Assignments(pairs[1..])
  }

  /** The values in order, then the email for the WHERE clause. */
  function Params(pairs: seq<(string, string)>, email: string): (r: seq<string>)
    ensures |r| == |pairs| + 1
    ensures forall i :: 0 <= i < |pairs| ==> r[i] == pairs[i].1
    ensures r[|pairs|] == email
  {
    if pairs == [] then [email] else [pairs[0].1] + Params(pairs[1..], email)
  }

  /** The statement `update_user_profile` sends. */
  function UpdateQuery(pairs: seq<(string, string)>): (q: string)
    ensures |q| == 17 + |Join(", ", Assignments(pairs))| + 17
    ensures q[..17] == "UPDATE users SET "
    ensures q[17..|q| - 17] == Join(", ", Assignments(pairs))
    ensures q[|q| - 17..] == " WHERE email = %s"
  {
    "UPDATE users SET " + Join(", ", Assignments(pairs)) + " WHERE email = %s"
  }

  /** The SET clause lists the keys in order: the first assignment, then
      ", " and the clause of the rest. */
  lemma SetClauseCons(p: (string, string), rest: seq<(string, string)>)
    ensures Join(", ", Assignments([p] + rest))
            == if rest == [] then p.0 + " = %s"
               else p.0 + " = %s" + ", " + Join(", ", Assignments(rest))
  {
    assert Assignments([p] + rest) == [p.0 + " = %s"] + Assignments(rest);
    assert ([p.0 + " = %s"] + Assignments(rest))[1..] == Assignments(rest);
  }

  // How the database reads a key of the SET clause. MySQL column names are
  // not case-sensitive, and blanks around an identifier are not part of it.

  /** The table's columns in their order. */
  const ColumnList: seq<Field> :=
    [Id, FirstName, LastName, Username, Email, Phone, Address, Pincode, PasswordHash, Salt]

  /** A blank of SQL text: space, tab, line feed, vertical tab, form feed or
      carriage return. */
  predicate IsSqlBlank(c: char)
  {
    c == ' ' || '\t' <= c <= '\r'
  }

  /** The text without the blanks around it. */
  function TrimBlanks(s: string): (r: string)
    ensures |r| <= |s|
    ensures r == [] || (!IsSqlBlank(r[0]) && !IsSqlBlank(r[|r| - 1]))
    ensures s != [] && !IsSqlBlank(s[0]) && !IsSqlBlank(s[|s| - 1]) ==> r == s
    decreases |s|
  {
    if s != [] && IsSqlBlank(s[0]) then TrimBlanks(s[1..])
    else if s != [] && IsSqlBlank(s[|s| - 1]) then TrimBlanks(s[..|s| - 1])
    else s
  }

  /** The first column of `cols` whose name is `name`. */
  function FindColumn(name: string, cols: seq<Field>): (r: Option<Field>)
    ensures r.Some? ==> r.value in cols && Name(r.value) == name
    ensures r.None? <==> forall i :: 0 <= i < |cols| ==> Name(cols[i]) != name
  {
    if cols == [] then None
    else if Name(cols[0]) == name then Some(cols[0])
    else FindColumn(name, cols[1..])
  }

  /** The search stops at the first column with the name. */
  lemma {:induction false} FindColumnAt(name: string, cols: seq<Field>, i: int)
    requires 0 <= i < |cols| && Name(cols[i]) == name
    requires forall j :: 0 <= j < i ==> Name(cols[j]) != name
    ensures FindColumn(name, cols) == Some(cols[i])
  {
    if i > 0 {
      FindColumnAt(name, cols[1..], i - 1);
    }
  }

  /** The column a key of the SET clause names, if it is one bare
      identifier: compared without regard to ASCII letter case, blanks
      around it ignored. */
  function ColumnOf(key: string): (r: Option<Field>)
    ensures r.Some? ==> r.value in ColumnList && Name(r.value) == Lower(TrimBlanks(key))
    ensures r.None? <==> forall i :: 0 <= i < |ColumnList| ==> Name(ColumnList[i]) != Lower(TrimBlanks(key))
  {
    FindColumn(Lower(TrimBlanks(key)), ColumnList)
  }

  /** The listed columns are the table's columns. */
  lemma ColumnListed(c: Field)
    ensures c in ColumnList <==> c in Columns
  {
  }

  /** A name made of lower-case letters and underscores is its own
      lower-case form. */
  lemma {:induction false} LowerKeeps(s: string)
    requires forall i :: 0 <= i < |s| ==> IsLower(s[i]) || s[i] == '_'
    ensures Lower(s) == s
  {
  }

  /** A key spelled exactly as the `i`-th column's name, in lower case and
      without blanks, names that column when no column before it has the
      same name. */
  lemma NamesColumn(k: string, i: int)
    requires 0 <= i < |ColumnList| && k == Name(ColumnList[i])
    requires k != [] && !IsSqlBlank(k[0]) && !IsSqlBlank(k[|k| - 1])
    requires forall m :: 0 <= m < |k| ==> IsLower(k[m]) || k[m] == '_'
    requires forall j :: 0 <= j < i ==> Name(ColumnList[j]) != k
    ensures ColumnOf(k) == Some(ColumnList[i])
  {
    LowerKeeps(k);
    FindColumnAt(k, ColumnList, i);
  }

  /** The database runs the statement only if it has at least one
      assignment and every key names a column. */
  predicate Executes(pairs: seq<(string, string)>)
  {
    pairs != [] && forall i :: 0 <= i < |pairs| ==> ColumnOf(pairs[i].0).Some?
  }

  /** A row with one column written. */
  function SetField(u: User, f: Field, v: string): (r: User)
    ensures forall g :: ColumnText(r, g) == if g == f && f in Columns then v else ColumnText(u, g)
  {
    match f
    case Id => u.(id := v)
    case FirstName => u.(firstName := v)
    case LastName => u.(lastName := v)
    case Username => u.(username := v)
    case Email => u.(email := v)
    case Phone => u.(phone := v)
    case Address => u.(address := v)
    case Pincode => u.(pincode := v)
    case PasswordHash => u.(passwordHash := v)
    case Salt => u.(salt := v)
    case _ => u
  }

  /** One assignment of the SET clause: the column the key names gets the
      value; a key that names no column changes nothing. */
  function SetColumn(u: User, key: string, v: string): (r: User)
    ensures forall g :: ColumnText(r, g) == if ColumnOf(key) == Some(g) then v else ColumnText(u, g)
  {
    match ColumnOf(key)
    case None => u
    case Some(f) => ColumnListed(f); SetField(u, f, v)
  }

  /** A row with the assignments made from left to right. */
  function Overwrite(u: User, pairs: seq<(string, string)>): User
    decreases |pairs|
  {
    if pairs == [] then u else Overwrite(SetColumn(u, pairs[0].0, pairs[0].1), pairs[1..])
  }

  /** `UPDATE users SET ... WHERE email = %s`. */
  function ApplyUpdate(users: seq<User>, email: string, pairs: seq<(string, string)>): (r: seq<User>)
    ensures |r| == |users|
    ensures forall i :: 0 <= i < |users| ==>
              r[i] == if users[i].email == email then Overwrite(users[i], pairs) else users[i]
  {
    if users == [] then []
    else [if users[0].email == email then Overwrite(users[0], pairs) else users[0]]
         + ApplyUpdate(users[1..], email, pairs)
  }

  /** The index of the last pair whose key names column `g`, or -1. */
  function LastWriter(pairs: seq<(string, string)>, g: Field): (i: int)
    ensures -1 <= i < |pairs|
    ensures i >= 0 ==> ColumnOf(pairs[i].0) == Some(g)
    ensures forall j :: i < j < |pairs| ==> ColumnOf(pairs[j].0) != Some(g)
  {
    if pairs == [] then -1
    else
      var k := LastWriter(pairs[1..], g);
      assert forall j :: 0 < j < |pairs| ==> pairs[j] == pairs[1..][j - 1];
      if k >= 0 then k + 1
      else if ColumnOf(pairs[0].0) == Some(g) then 0
      else -1
  }

  /** After the writes, each column holds the value of the last assignment
      that names it, and a column no assignment names keeps its value. */
  lemma {:induction false} OverwriteColumns(u: User, pairs: seq<(string, string)>, g: Field)
    ensures var i := LastWriter(pairs, g);
            ColumnText(Overwrite(u, pairs), g) == if i < 0 then ColumnText(u, g) else pairs[i].1
    decreases |pairs|
  {
    if pairs != [] {
      var u1 := SetColumn(u, pairs[0].0, pairs[0].1);
      OverwriteColumns(u1, pairs[1..], g);
    }
  }

  /** The loop of `update_user_profile` that fills `sanitized_updates`. */
  method SanitizeUpdates(updates: seq<(string, string)>) returns (sanitized: seq<(string, string)>)
    ensures sanitized == SanitizedUpdates(updates)
  {
    sanitized := [];
    for i := 0 to |updates|
      invariant sanitized == SanitizedUpdates(updates[..i])
    {
      var (key, value) := updates[i];
      var v := if key in ProfileKeys then SanitizeInput(Some(value), if key != "address" then 255 else 500) else value;
      sanitized := sanitized + [(key, v)];
      assert updates[..i + 1][..i] == updates[..i];
    }
    assert updates[..|updates|] == updates;
  }

  /** The users table and the next auto-increment id. */
  class UserStore {
    var users: seq<User>
    var nextId: int

    constructor ()
      ensures users == [] && nextId == 1
    {
      users := [];
      nextId := 1;
    }

    /** `register_user`: the required-field loop, the email and phone
        checks, the uniqueness lookup, then the insert. `notice` is the
        message the page shows. */
    method RegisterUser(data: Row, salt: string, kdf: (string, string) -> string)
      returns (ok: bool, notice: string)
      modifies this
      ensures var o := RegisterOutcome(old(users), data, old(nextId), salt, kdf);
              && (ok <==> o.Ok?)
              && (ok ==> users == old(users) + [o.value] && nextId == old(nextId) + 1
                         && notice == "Registration successful! Please login.")
              && (!ok ==> users == old(users) && nextId == old(nextId) && notice == o.error)
    {
      for i := 0 to |RequiredFields|
        invariant FirstMissing(data, RequiredFields) == FirstMissing(data, RequiredFields[i..])
      {
        var field := RequiredFields[i];
        if !(field in data && data[field] != "") {
          return false, Label(field) + " is required";
        }
        assert RequiredFields[i..][1..] == RequiredFields[i + 1..];
      }
      assert FirstMissing(data, RequiredFields[|RequiredFields|..]) == None;
      RequiredFilledIff(data);
      if !ValidateEmail(data[Email]) {
        return false, "Invalid email format";
      }
      if !ValidatePhone(data[Phone]) {
        return false, "Invalid phone number format";
      }
      if Taken(users, data[Email], data[Username]) {
        return false, "User with this email or username already exists";
      }
      var user := NewUser(data, nextId, salt, kdf);
      users := users + [user];
      nextId := nextId + 1;
      return true, "Registration successful! Please login.";
    }

    /** `update_user_profile`: a supplied email or phone must be valid
        (the two checks, in the source's order, are `UpdateCheck`); the
        values are sanitised in a loop, and the statement and its
        parameters are built from the sanitised pairs. When the database
        refuses the statement (no assignment, or a key that names no
        column) the table is unchanged and `dbError` is reported. */
    method UpdateUserProfile(email: string, updates: seq<(string, string)>, dbError: string)
      returns (ok: bool, notice: string, query: string, params: seq<string>)
      modifies this
      ensures nextId == old(nextId)
      ensures UpdateCheck(updates).Some? ==>
                !ok && notice == UpdateCheck(updates).value && users == old(users)
      ensures UpdateCheck(updates).None? ==>
                var pairs := SanitizedUpdates(updates);
                && query == UpdateQuery(pairs)
                && params == Params(pairs, email)
                && (ok <==> Executes(pairs))
                && (ok ==> users == ApplyUpdate(old(users), email, pairs) && notice == "Profile updated successfully!")
                && (!ok ==> users == old(users) && notice == "Profile update failed: " + dbError)
    {
      var check := UpdateCheck(updates);
      if check.Some? {
        return false, check.value, "", [];
      }
      var sanitized := SanitizeUpdates(updates);
      query := "UPDATE users SET " + Join(", ", Assignments(sanitized)) + " WHERE email = %s";
      assert query == UpdateQuery(sanitized);
      params := Params(sanitized, email);
      if !Executes(sanitized) {
        return false, "Profile update failed: " + dbError, query, params;
      }
      users := ApplyUpdate(users, email, sanitized);
      return true, "Profile updated successfully!", query, params;
    }
  }

  /** The keys of a list of pairs. */
  function KeysOf(pairs: seq<(string, string)>): (r: set<string>)
    ensures forall k :: k in r <==> Lookup(pairs, k).Some?
  {
    if pairs == [] then {} else {pairs[0].0} + KeysOf(pairs[1..])
  }

  /** After an accepted update, each column of the user's row holds the
      value of the last submitted key that names it, sanitised as that
      key's own spelling decides, and a column no key names keeps its
      value. */
  lemma UpdateWritesSanitised(u: User, updates: seq<(string, string)>, g: Field)
    ensures var i := LastWriter(updates, g);
            ColumnText(Overwrite(u, SanitizedUpdates(updates)), g)
            == if i < 0 then ColumnText(u, g) else SanitizeUpdate(updates[i].0, updates[i].1)
  {
    var s := SanitizedUpdates(updates);
    SameKeysLastWriter(updates, s, g);
    OverwriteColumns(u, s, g);
  }

  /** Two lists with the same keys at the same places have the same last
      writer of every column. */
  lemma {:induction false} SameKeysLastWriter(a: seq<(string, string)>, b: seq<(string, string)>, g: Field)
    requires |a| == |b| && forall i :: 0 <= i < |a| ==> a[i].0 == b[i].0
    ensures LastWriter(a, g) == LastWriter(b, g)
  {
    if a != [] {
      SameKeysLastWriter(a[1..], b[1..], g);
    }
  }

  /** The key "first_name" names the first_name column, so its value
      reaches that column sanitised. */
  lemma FirstNameKeyColumn(k: string)
    requires k == "first_name"
    ensures ColumnOf(k) == Some(FirstName)
  {
    assert k[0] == 'f' && k[|k| - 1] == 'e';
    assert Name(ColumnList[0]) != k by { assert |Name(ColumnList[0])| == 2; }
    NamesColumn(k, 1);
  }

  /** A key that names a column but is not spelled exactly as a profile
      key, such as "FIRST_NAME" or "first_name ", is run by the database
      while its value skips the sanitiser: the column gets the value as
      sent. */
  lemma VariantKeySkipsSanitiser(u: User, k: string, v: string, g: Field)
    requires ColumnOf(k) == Some(g) && k !in ProfileKeys
    ensures Executes(SanitizedUpdates([(k, v)]))
    ensures ColumnText(Overwrite(u, SanitizedUpdates([(k, v)])), g) == v
  {
    UpdateWritesSanitised(u, [(k, v)], g);
  }

  /** "FIRST_NAME" names the first_name column and is not one of the
      spellings that are sanitised. */
  lemma UpperCaseKeyNamesColumn(k: string)
    requires k == "FIRST_NAME"
    ensures ColumnOf(k) == Some(FirstName) && k !in ProfileKeys
  {
    var n := "first_name";
    assert Lower(TrimBlanks(k)) == n by {
      assert k[0] == 'F' && k[|k| - 1] == 'E';
      LowerUpperFirstName(k);
    }
    FirstNameKeyColumn(n);
    NotProfileKey(k);
  }

  /** Sent as "FIRST_NAME", a first name with brackets in it is stored as
      it was sent. */
  lemma UpperCaseKeyStoresRaw(u: User, k: string, v: string)
    requires k == "FIRST_NAME"
    ensures Executes(SanitizedUpdates([(k, v)]))
    ensures Overwrite(u, SanitizedUpdates([(k, v)])).firstName == v
  {
    UpperCaseKeyNamesColumn(k);
    VariantKeySkipsSanitiser(u, k, v, FirstName);
  }

  lemma NotProfileKey(k: string)
    requires k == "FIRST_NAME"
    ensures k !in ProfileKeys
  {
    assert forall j :: 0 <= j < |ProfileKeys| ==> ProfileKeys[j][0] != k[0];
  }

  lemma LowerUpperFirstName(k: string)
    requires k == "FIRST_NAME"
    ensures Lower(k) == "first_name"
  {
    assert k == "FIRST" + "_NAME";
    LowerAppend("FIRST", "_NAME");
    LowerFirst("FIRST");
    LowerName("_NAME");
  }

  lemma LowerFirst(k: string)
    requires k == "FIRST"
    ensures Lower(k) == "first"
  {
    var r := Lower(k);
    forall i | 0 <= i < 5 ensures r[i] == "first"[i] {
      assert r[i] == LowerChar(k[i]);
    }
  }

  lemma LowerName(k: string)
    requires k == "_NAME"
    ensures Lower(k) == "_name"
  {
    var r := Lower(k);
    forall i | 0 <= i < 5 ensures r[i] == "_name"[i] {
      assert r[i] == LowerChar(k[i]);
    }
  }
}
