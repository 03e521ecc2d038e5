/** The user schema (backend/src/models/User.js): the fields a user holds,
    how each path of a new user is cast and validated, the pre-save hook
    that hashes a modified password, `comparePassword`, and the JSON form
    of a user, which never carries the password. */
module UserModel {
  import opened Base
  import opened Text

  datatype Role = UserRole | AdminRole

  const NameMinLength: nat := 2
  const NameMaxLength: nat := 50
  const PasswordMinLength: nat := 6

  const NameRequiredMessage := "Name is required"
  const NameTooShortMessage := "Name must be at least 2 characters"
  const NameTooLongMessage := "Name cannot exceed 50 characters"
  const EmailRequiredMessage := "Email is required"
  const EmailInvalidMessage := "Please provide a valid email"
  const PasswordRequiredMessage := "Password is required"
  const PasswordTooShortMessage := "Password must be at least 6 characters"
  const RoleEnumMessage := "Role must be either user or admin"

  function RoleName(r: Role): string
  {
    match r
    case UserRole => "user"
    case AdminRole => "admin"
  }

  /** The enum validator of `role`. */
  function ParseRole(v: string): (r: Option<Role>)
    ensures r.Some? <==> v in {"user", "admin"}
    ensures r.Some? ==> RoleName(r.value) == v
  {
    if v == "user" then Some(UserRole) else if v == "admin" then Some(AdminRole) else None
  }

  /** bcrypt reads at most this many bytes of the password. */
  const BcryptKeyBytes: nat := 72

  /** The bytes of a password bcrypt uses under a `$2a$` salt: its UTF-8
      encoding with a terminating zero byte, read over and over from the
      start until 72 bytes are taken (possibly ending inside a character). */
  function BcryptKey(plain: string): (key: seq<int>)
    ensures |key| == BcryptKeyBytes
    ensures |Utf8(plain)| < BcryptKeyBytes ==> key[..|Utf8(plain)| + 1] == Utf8(plain) + [0]
    ensures |Utf8(plain)| >= BcryptKeyBytes ==> key == Utf8(plain)[..BcryptKeyBytes]
  {
    Cyclic(Utf8(plain) + [0], BcryptKeyBytes)
  }

  /** The first `n` bytes of `stream` read cyclically, the way bcrypt's key
      schedule reads its key with the offset taken modulo its length. */
  function Cyclic(stream: seq<int>, n: nat): (r: seq<int>)
    requires stream != []
    ensures |r| == n
    ensures n <= |stream| ==> r == stream[..n]
    ensures n >= |stream| ==> r[..|stream|] == stream
    decreases n
  {
    if n <= |stream| then stream[..n] else stream + Cyclic(stream, n - |stream|)
  }

  /** Reading a stream written twice cyclically is reading it once. */
  lemma {:induction false} CyclicOfDoubled(stream: seq<int>, n: nat)
    requires stream != []
    ensures Cyclic(stream + stream, n) == Cyclic(stream, n)
    decreases n
  {
    var m, twice := |stream|, stream + stream;
    if n <= 2 * m {
      DoubledPrefix(stream, n);
    } else {
      CyclicOfDoubled(stream, n - 2 * m);
      assert Cyclic(twice, n) == twice + Cyclic(stream, n - 2 * m);
      assert Cyclic(stream, n - m) == stream + Cyclic(stream, n - 2 * m);
      assert Cyclic(stream, n) == stream + (stream + Cyclic(stream, n - 2 * m));
    }
  }

  /** bcrypt's output as an uninterpreted term: the salt and the key bytes
      it was computed from. Equal digests have equal inputs, which stands
      for bcrypt's collision resistance on what it reads. */
  datatype Digest = Bcrypt(salt: nat, key: seq<int>)

  function Hash(plain: string, salt: nat): Digest
  {
    Bcrypt(salt, BcryptKey(plain))
  }

  /** The `password` path: a plaintext value assigned to the document, or
      the digest the pre-save hook stored in its place. */
  datatype Password = Plain(text: string) | Hashed(digest: Digest)

  /** `bcrypt.compare(candidate, stored)`: hashing the candidate with the
      stored digest's salt reproduces the digest. A value that is not a
      digest matches nothing. */
  function Compare(candidate: string, stored: Password): (r: bool)
    ensures r <==> exists salt :: stored == Hashed(Hash(candidate, salt))
  {
    stored.Hashed? && Hash(candidate, stored.digest.salt) == stored.digest
  }

  /** A stored user. `createdAt` is used only for ordering. */
  datatype User = User(
    id: UserId,
    name: string,
    email: string,
    password: Password,
    role: Role,
    createdAt: nat)

  /** What the schema guarantees of every stored user. */
  predicate WellFormed(u: User)
  {
    && IsTrimmed(u.name) && NameMinLength <= Utf16Length(u.name) <= NameMaxLength
    && IsEmail(u.email) && ToLower(u.email) == u.email
  }

  /** The `email` setters: trimmed, then lower-cased. They also apply to
      the filters of `findOne({ email })`. */
  function NormalizeEmail(v: string): (r: string)
    ensures ToLower(r) == r
    ensures IsTrimmed(r)
  {
    var t := Trim(v);
    var r := ToLower(t);
    assert forall k :: 0 <= k < |t| ==> IsWhite(r[k]) == IsWhite(t[k]) by {
      forall k | 0 <= k < |t| ensures IsWhite(r[k]) == IsWhite(t[k]) { LowerKeepsWhite(t[k]); }
    }
    assert forall k :: 0 <= k < |r| ==> LowerChar(r[k]) == r[k];
    assert ToLower(r) == r;
    r
  }

  function CheckName(v: Option<string>): (r: Checked<string>)
    ensures r.Accepted? <==> v.Some? && NameMinLength <= Utf16Length(Trim(v.value)) <= NameMaxLength
    ensures r.Accepted? ==> r.value == Trim(v.value)
    ensures v.None? ==> r == Rejected(FieldError("name", NameRequiredMessage))
  {
    if v.None? || Trim(v.value) == "" then Rejected(FieldError("name", NameRequiredMessage))
    else if Utf16Length(Trim(v.value)) < NameMinLength then Rejected(FieldError("name", NameTooShortMessage))
    else if Utf16Length(Trim(v.value)) > NameMaxLength then Rejected(FieldError("name", NameTooLongMessage))
    else Accepted(Trim(v.value))
  }

  function CheckEmail(v: Option<string>): (r: Checked<string>)
    ensures r.Accepted? <==> v.Some? && IsEmail(NormalizeEmail(v.value))
    ensures r.Accepted? ==> r.value == NormalizeEmail(v.value)
    ensures v.None? ==> r == Rejected(FieldError("email", EmailRequiredMessage))
  {
    if v.None? || NormalizeEmail(v.value) == "" then Rejected(FieldError("email", EmailRequiredMessage))
    else if !IsEmail(NormalizeEmail(v.value)) then Rejected(FieldError("email", EmailInvalidMessage))
    else Accepted(NormalizeEmail(v.value))
  }

  function CheckPassword(v: Option<string>): (r: Checked<string>)
    ensures r.Accepted? <==> v.Some? && Utf16Length(v.value) >= PasswordMinLength
    ensures r.Accepted? ==> r.value == v.value
    ensures v.None? ==> r == Rejected(FieldError("password", PasswordRequiredMessage))
  {
    if v.None? || v.value == "" then Rejected(FieldError("password", PasswordRequiredMessage))
    else if Utf16Length(v.value) < PasswordMinLength then Rejected(FieldError("password", PasswordTooShortMessage))
    else Accepted(v.value)
  }

  /** `role` defaults to 'user' when missing; otherwise it must be a member. */
  function CheckRole(v: Option<string>): (r: Checked<Role>)
    ensures v.None? ==> r == Accepted(UserRole)
    ensures v.Some? ==> (r.Accepted? <==> v.value in {"user", "admin"})
    ensures v.Some? && r.Accepted? ==> RoleName(r.value) == v.value
  {
    if v.None? then Accepted(UserRole)
    else match ParseRole(v.value)
      case Some(role) => Accepted(role)
      case None => Rejected(FieldError("role", RoleEnumMessage))
  }

  /** The values passed to `User.create`; a missing key is `undefined`. */
  datatype NewUserFields = NewUserFields(
    name: Option<string>,
    email: Option<string>,
    password: Option<string>,
    role: Option<string>)

  /** Validation of a new user, before the pre-save hook: every path is
      cast and checked, and every failing path is reported in schema order.
      The password is still the plaintext here; the hook hashes it. */
  function NewUser(fields: NewUserFields, id: UserId, now: nat): (r: Validated<User>)
    ensures r.Valid? <==>
      && CheckName(fields.name).Accepted? && CheckEmail(fields.email).Accepted?
      && CheckPassword(fields.password).Accepted? && CheckRole(fields.role).Accepted?
    ensures r.Valid? ==> WellFormed(r.value)
    ensures r.Valid? ==> r.value.id == id && r.value.createdAt == now
    ensures r.Valid? ==> r.value.email == NormalizeEmail(fields.email.value)
    ensures r.Valid? ==> r.value.password == Plain(fields.password.value)
    ensures r.Valid? && fields.role.None? ==> r.value.role == UserRole
    ensures r.Invalid? ==> r.errors != []
  {
    var name := CheckName(fields.name);
    var email := CheckEmail(fields.email);
    var password := CheckPassword(fields.password);
    var role := CheckRole(fields.role);
    if name.Accepted? && email.Accepted? && password.Accepted? && role.Accepted? then
      Valid(User(id, name.value, email.value, Plain(password.value), role.value, now))
    else
      Invalid(Report(name) + Report(email) + Report(password) + Report(role))
  }

  /** A user document in memory, with Mongoose's record of whether the
      `password` path was assigned since the document was loaded. */
  class UserDocument {
    var record: User
    var passwordModified: bool

    /** A modified password is always the plaintext that was assigned. */
    predicate Valid()
      reads this
    {
      passwordModified ==> record.password.Plain?
    }

    /** `new User(fields)`: every path of a new document counts as modified. */
    constructor Create(u: User)
      requires u.password.Plain?
      ensures Valid()
      ensures record == u && passwordModified
    {
      record := u;
      passwordModified := true;
    }

    /** A document read back from the collection: nothing is modified. */
    constructor Load(u: User)
      ensures Valid()
      ensures record == u && !passwordModified
    {
      record := u;
      passwordModified := false;
    }

    /** `doc.password = plain`. */
    method SetPassword(plain: string)
      modifies this
      ensures Valid()
      ensures record == old(record).(password := Plain(plain)) && passwordModified
    {
      record := record.(password := Plain(plain));
      passwordModified := true;
    }

    /** `doc.save()`: the pre-save hook replaces a modified password by its
      digest under a fresh `salt` and leaves an unmodified one as stored;
      once written, the document has no modified paths. */
    method Save(salt: nat)
      requires Valid()
      modifies this
      ensures Valid()
      ensures old(passwordModified) ==>
        record == old(record).(password := Hashed(Hash(old(record).password.text, salt)))
      ensures !old(passwordModified) ==> record == old(record)
      ensures !passwordModified
    {
      if passwordModified {
        record := record.(password := Hashed(Hash(record.password.text, salt)));
      }
      passwordModified := false;
    }

    /** `user.comparePassword(candidate)`. */
    function ComparePassword(candidate: string): (r: bool)
      reads this
      ensures r <==> exists salt :: record.password == Hashed(Hash(candidate, salt))
    {
      Compare(candidate, record.password)
    }
  }

  /** After a new document is saved, a candidate matches exactly when
      bcrypt reads the same key bytes from it as from the password. */
  lemma HashedPasswordMatchesOnlyItself(plain: string, candidate: string, salt: nat)
    ensures Compare(candidate, Hashed(Hash(plain, salt))) <==> BcryptKey(candidate) == BcryptKey(plain)
  {
  }

  lemma DoubledPrefix(stream: seq<int>, n: nat)
    requires stream != [] && n <= 2 * |stream|
    ensures Cyclic(stream + stream, n) == Cyclic(stream, n)
  {
    var m, twice := |stream|, stream + stream;
    assert Cyclic(twice, n) == twice[..n];
    if n <= m {
      assert twice[..n] == stream[..n];
    } else {
      assert Cyclic(stream, n) == stream + stream[..n - m];
      assert twice[..n] == stream + stream[..n - m];
    }
  }

  /** Passwords of at most 72 UTF-8 bytes without a U+0000 are told apart:
      only the password itself matches its digest. */
  lemma ShortPasswordsAreDistinct(plain: string, candidate: string)
    requires |Utf8(plain)| <= BcryptKeyBytes && |Utf8(candidate)| <= BcryptKeyBytes
    requires '\0' !in plain && '\0' !in candidate
    ensures BcryptKey(candidate) == BcryptKey(plain) <==> candidate == plain
  {
    if BcryptKey(candidate) == BcryptKey(plain) {
      var key := BcryptKey(plain);
      var p, c := Utf8(plain), Utf8(candidate);
      Utf8HasNoZero(plain);
      Utf8HasNoZero(candidate);
      KeyPrefix(plain);
      KeyPrefix(candidate);
      assert |p| == |c|;
      assert p == key[..|p|] == c;
      Utf8Injective(candidate, plain);
    }
  }

  /** The key of a password of at most 72 bytes starts with its encoding. */
  lemma KeyPrefix(plain: string)
    requires |Utf8(plain)| <= BcryptKeyBytes
    ensures Utf8(plain) == BcryptKey(plain)[..|Utf8(plain)|]
    ensures |Utf8(plain)| < BcryptKeyBytes ==> BcryptKey(plain)[|Utf8(plain)|] == 0
  {
    var p, key := Utf8(plain), BcryptKey(plain);
    if |p| < BcryptKeyBytes {
      assert key[..|p|] == key[..|p| + 1][..|p|];
    }
  }

  /** A password without U+0000 encodes to nonzero bytes only. */
  lemma {:induction false} Utf8HasNoZero(s: string)
    requires '\0' !in s
    ensures forall i :: 0 <= i < |Utf8(s)| ==> Utf8(s)[i] != 0
  {
    if s != [] {
      assert '\0' !in s[1..] by {
        forall k | 0 <= k < |s[1..]| ensures s[1..][k] != '\0' {
          assert s[1..][k] == s[k + 1];
        }
      }
      Utf8HasNoZero(s[1..]);
      assert s[0] != '\0';
    }
  }

  /** A password, a U+0000 and the password again share the password's key:
      bcrypt's terminating zero makes the longer text the same cycle. */
  lemma NulRepeatSharesKey(plain: string)
    ensures BcryptKey(plain + "\0" + plain) == BcryptKey(plain)
  {
    Utf8Append(plain + "\0", plain);
    Utf8Append(plain, "\0");
    assert Utf8("\0") == [0];
    var stream := Utf8(plain) + [0];
    assert Utf8(plain + "\0" + plain) + [0] == stream + stream;
    CyclicOfDoubled(stream, BcryptKeyBytes);
  }

  /** With the stored digest of "abcdef", the different text
      "abcdef", U+0000, "abcdef" is accepted as the password. */
  lemma NulCandidateMatches(salt: nat)
    ensures "abcdef\0abcdef" != "abcdef"
    ensures Compare("abcdef\0abcdef", Hashed(Hash("abcdef", salt)))
  {
    var plain := "abcdef";
    var candidate := plain + "\0" + plain;
    NulRepeatSharesKey(plain);
    HashedPasswordMatchesOnlyItself(plain, candidate, salt);
    assert candidate == "abcdef\0abcdef";
    assert |candidate| != |plain|;
  }

  /** A password of 71 bytes and the same followed by U+0000 share a key. */
  lemma TrailingNulIgnored(plain: string)
    requires |Utf8(plain)| == BcryptKeyBytes - 1
    ensures BcryptKey(plain + "\0") == BcryptKey(plain)
  {
    Utf8Append(plain, "\0");
    assert Utf8("\0") == [0];
  }

  /** Whatever follows the first 72 bytes of a password is ignored. */
  lemma LongPasswordIgnoresRest(plain: string, extra: string)
    requires |Utf8(plain)| >= BcryptKeyBytes
    ensures BcryptKey(plain + extra) == BcryptKey(plain)
  {
    Utf8Append(plain, extra);
    assert Utf8(plain + extra)[..BcryptKeyBytes] == Utf8(plain)[..BcryptKeyBytes];
  }

  /** Seventy-two `a`s and the same followed by `b` share a digest. */
  lemma SeventyThirdByteIgnored(salt: nat)
    ensures var p := seq(72, _ => 'a');
      p + "b" != p && Compare(p + "b", Hashed(Hash(p, salt)))
  {
    var p := seq(72, _ => 'a');
    LongPasswordIgnoresRest(p, "b");
    assert |p + "b"| != |p|;
  }

  /** The leading part of a bcrypt string at cost 12, standing for the
      whole digest in the object form. */
  const BcryptPrefix := "$2a$12$"

  /** A user's object form before `toJSON`: every path and `__v`; the
      password appears only when the query selected it (`+password`). */
  function UserObject(u: User, version: nat, withPassword: bool): map<string, Json>
  {
    var base := map[
      "_id" := JNum(u.id),
      "name" := JStr(u.name),
      "email" := JStr(u.email),
      "role" := JStr(RoleName(u.role)),
      "createdAt" := JNum(u.createdAt),
      "__v" := JNum(version)];
    if withPassword then
      base["password" := JStr(if u.password.Plain? then u.password.text else BcryptPrefix)]
    else base
  }

  /** The schema's `toJSON` transform: deletes `password` and `__v`. */
  function UserToJSON(doc: map<string, Json>): (r: map<string, Json>)
    ensures "password" !in r && "__v" !in r
    ensures r.Keys == doc.Keys - {"password", "__v"}
    ensures forall k :: k in r ==> r[k] == doc[k]
  {
    doc - {"password", "__v"}
  }

  /** Serialised users carry exactly the public fields, with their values,
      whether or not the password was selected. */
  lemma SerialisedUserIsPublic(u: User, version: nat, withPassword: bool)
    ensures UserToJSON(UserObject(u, version, withPassword))
         == map["_id" := JNum(u.id), "name" := JStr(u.name), "email" := JStr(u.email),
                "role" := JStr(RoleName(u.role)), "createdAt" := JNum(u.createdAt)]
  {
  }
}
