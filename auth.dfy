/** Registration by one-time password and credential checking (backend/src/auth/auth.service.ts),
    over the OTP collection, the user table and the outgoing mail. */
module Auth {
  import opened Wrappers
  import opened Users

  /** A stored one-time password for an email address. */
  datatype OtpRecord = OtpRecord(email: string, code: string)

  /** A message handed to the mailer. */
  datatype Mail = Mail(recipient: string, code: string)

  /** A user as returned to a client: every field except the password. */
  datatype PublicUser = PublicUser(id: string, name: string, email: string, role: Role)

  /** The client view of a stored user. */
  function Public(u: User): PublicUser
  {
    PublicUser(u.id, u.name, u.email, u.role)
  }

  /** What the object spread `{ password: _, ...rest }` copies from a hydrated user
      document. A spread copies own properties only. The schema fields, `password` among
      them, are accessors rather than own properties, so the rest pattern removes nothing,
      and the own property `_doc` carries the whole stored record. Mongoose's other
      bookkeeping properties are not modelled. */
  datatype SpreadDocument = SpreadDocument(doc: User)

  /** Two accounts that differ only in their stored hash: the spread result tells them
      apart, so it carries the hash, while the client view does not. */
  lemma SpreadRevealsHash(u: User, other: string)
    requires other != u.password
    ensures SpreadDocument(u) != SpreadDocument(u.(password := other))
    ensures SpreadDocument(u.(password := other)).doc.password == other
    ensures Public(u) == Public(u.(password := other))
  {
  }

  /** The data of a completed registration: the message and whatever `users.create` answered. */
  datatype Registration = Registration(message: string, user: Response<User>)

  /** The character of a decimal digit. */
  function DigitChar(d: nat): char
    requires d < 10
  {
    ('0' as int + d) as char
  }

  predicate IsDigit(c: char)
  {
    '0' <= c <= '9'
  }

  /** `n.toString()` for a non-negative integer: its decimal digits without leading zeros. */
  function DecimalString(n: nat): (s: string)
    ensures |s| >= 1 && forall i :: 0 <= i < |s| ==> IsDigit(s[i])
    ensures |s| > 1 ==> s[0] != '0'
  {
    if n < 10 then [DigitChar(n)] else DecimalString(n / 10) + [DigitChar(n % 10)]
  }

  /** The number a string of decimal digits denotes. */
  function ParseDecimal(s: string): nat
    requires forall i :: 0 <= i < |s| ==> IsDigit(s[i])
  {
    if s == [] then 0
    else
      assert IsDigit(s[|s| - 1]);
      ParseDecimal(s[..|s| - 1]) * 10 + (s[|s| - 1] as int - '0' as int)
  }

  /** Reading the decimal string back gives the number: distinct OTP numbers give distinct codes. */
  lemma {:induction false} DecimalRoundTrip(n: nat)
    ensures ParseDecimal(DecimalString(n)) == n
  {
    var s := DecimalString(n);
    if n >= 10 {
      DecimalRoundTrip(n / 10);
      assert s[..|s| - 1] == DecimalString(n / 10);
    }
  }

  /** A number drawn from [100000, 1000000) is written with exactly six digits. */
  lemma SixDigits(n: nat)
    requires 100000 <= n < 1000000
    ensures |DecimalString(n)| == 6
  {
    LengthOfDecimal(n, 5);
  }

  /** `n` with `10^k <= n < 10^(k+1)` has `k + 1` digits. */
  lemma {:induction false} LengthOfDecimal(n: nat, k: nat)
    requires Pow10(k) <= n < Pow10(k + 1)
    ensures |DecimalString(n)| == k + 1
  {
    if k > 0 {
      LengthOfDecimal(n / 10, k - 1);
    }
  }

  function Pow10(k: nat): (p: nat)
    ensures p >= 1
  {
    if k == 0 then 1 else 10 * Pow10(k - 1)
  }

  /** The index of the first record with exactly this email and code, as `findOne` finds it. */
  function FirstMatch(otps: seq<OtpRecord>, rec: OtpRecord): (r: Option<nat>)
    ensures r.Some? ==> r.value < |otps| && otps[r.value] == rec
    ensures r.None? <==> rec !in otps
  {
    if otps == [] then None
    else if otps[0] == rec then Some(0)
    else
      var rest := FirstMatch(otps[1..], rec);
      if rest.Some? then Some(rest.value + 1) else None
  }

  /** The authentication service: the OTP collection, the mail it sent and the user table. */
  class AuthService {
    var otps: seq<OtpRecord>
    var outbox: seq<Mail>
    const users: UserService

    ghost predicate Valid()
      reads this, users
    {
      users.Valid()
    }

    constructor(userService: UserService)
      requires userService.Valid()
      ensures Valid() && otps == [] && outbox == [] && users == userService
    {
      otps := [];
      outbox := [];
      users := userService;
    }

    /** `registerWithOtp`. `n` is the number `randomInt(100000, 1000000)` drew; `lookupOk`,
        `storeOk` and `mailOk` are the outcomes of the user lookup, the OTP insertion and the
        mailer. A failed lookup does not stop the registration. */
    method RegisterWithOtp(email: string, n: nat, lookupOk: bool, storeOk: bool, mailOk: bool)
      returns (r: Response<string>)
      requires 100000 <= n < 1000000
      modifies this
      ensures users.users == old(users.users)
      ensures lookupOk && FindEmail(users.users, email).Some? ==>
        r == Failure("Email is already registered") && otps == old(otps) && outbox == old(outbox)
      ensures !(lookupOk && FindEmail(users.users, email).Some?) ==>
        && (!storeOk ==>
              r == Failure("Failed to store OTP") && otps == old(otps) && outbox == old(outbox))
        && (storeOk ==> otps == old(otps) + [OtpRecord(email, DecimalString(n))])
        && (storeOk && !mailOk ==> r == Failure("Failed to send OTP email") && outbox == old(outbox))
        && (storeOk && mailOk ==>
              r == Success("OTP has been sent to your email address.")
              && outbox == old(outbox) + [Mail(email, DecimalString(n))])
      ensures r.Success? ==> |DecimalString(n)| == 6
    {
      var found := users.FindByEmail(email, lookupOk);
      if found.Success? && found.data.Some? {
        return Failure("Email is already registered");
      }
      var code := DecimalString(n);
      SixDigits(n);
      if !storeOk {
        return Failure("Failed to store OTP");
      }
      otps := otps + [OtpRecord(email, code)];
      if !mailOk {
        return Failure("Failed to send OTP email");
      }
      outbox := outbox + [Mail(email, code)];
      r := Success("OTP has been sent to your email address.");
    }

    /** `verifyOtpAndCompleteRegistration`. Without a record for exactly this email and code
        nothing changes; otherwise that record is deleted, `users.create` is called with role
        `user`, and its answer, success or not, is wrapped in a successful response. */
    method VerifyOtp(email: string, otp: string, password: string, name: string,
                     newId: string, lookupOk: bool, saveOk: bool)
      returns (r: Response<Registration>)
      requires Valid() && forall i :: 0 <= i < |users.users| ==> users.users[i].id != newId
      modifies this, users
      ensures Valid() && outbox == old(outbox)
      ensures OtpRecord(email, otp) !in old(otps) ==>
        r == Failure("Invalid or expired OTP") && otps == old(otps) && users.users == old(users.users)
      ensures OtpRecord(email, otp) in old(otps) ==>
        r.Success? && r.data.message == "Registration successful"
        && multiset(otps) + multiset{OtpRecord(email, otp)} == multiset(old(otps))
      ensures OtpRecord(email, otp) in old(otps) ==>
        r.data.user ==
          if !lookupOk then Failure("Error creating user")
          else if FindEmail(old(users.users), email).Some? then Failure("Email already exists")
          else if !saveOk then Failure("Error creating user")
          else Success(User(newId, name, email, users.hash(password), UserRole))
      ensures r.Success? && r.data.user.Success? ==>
        r.data.user.data == User(newId, name, email, users.hash(password), UserRole)
        && users.users == old(users.users) + [r.data.user.data]
      ensures r.Success? && r.data.user.Failure? ==> users.users == old(users.users)
    {
      var rec := OtpRecord(email, otp);
      var i := FirstMatch(otps, rec);
      if i.None? {
        return Failure("Invalid or expired OTP");
      }
      DeleteAt(otps, i.value);
      otps := otps[..i.value] + otps[i.value + 1..];
      var created := users.Create(RegisterRequest(name, email, password, UserRole), newId, lookupOk, saveOk);
      r := Success(Registration("Registration successful", created));
    }

    /** `validateUser` as written: 'User not found' when the lookup fails or finds nobody,
        'Invalid credentials' when the password's hash differs from the stored one, and
        otherwise the spread of the found document, which still holds the stored hash. */
    method ValidateUserAsWritten(email: string, password: string, lookupOk: bool)
      returns (r: Response<SpreadDocument>)
      ensures !lookupOk || FindEmail(users.users, email).None? ==> r == Failure("User not found")
      ensures lookupOk && FindEmail(users.users, email).Some? ==>
        var u := FindEmail(users.users, email).value;
        && (users.hash(password) != u.password ==> r == Failure("Invalid credentials"))
        && (users.hash(password) == u.password ==> r == Success(SpreadDocument(u)))
      ensures r.Success? ==> r.data.doc.password == users.hash(password)
    {
      var response := users.FindByEmail(email, lookupOk);
      if response.Failure? || response.data.None? {
        return Failure("User not found");
      }
      var user := response.data.value;
      if users.hash(password) != user.password {
        return Failure("Invalid credentials");
      }
      r := Success(SpreadDocument(user));
    }

    /** `validateUser` as its comment intends: the same refusals, and otherwise the user
        without its password. */
    method ValidateUser(email: string, password: string, lookupOk: bool)
      returns (r: Response<PublicUser>)
      ensures !lookupOk || FindEmail(users.users, email).None? ==> r == Failure("User not found")
      ensures lookupOk && FindEmail(users.users, email).Some? ==>
        var u := FindEmail(users.users, email).value;
        && (users.hash(password) != u.password ==> r == Failure("Invalid credentials"))
        && (users.hash(password) == u.password ==> r == Success(Public(u)))
      ensures r.Success? ==> exists i :: 0 <= i < |users.users| && users.users[i].email == email
                               && users.users[i].password == users.hash(password)
    {
      var response := users.FindByEmail(email, lookupOk);
      if response.Failure? || response.data.None? {
        return Failure("User not found");
      }
      var user := response.data.value;
      if users.hash(password) != user.password {
        return Failure("Invalid credentials");
      }
      r := Success(Public(user));
    }
  }

  /** Deleting the record at `i` removes exactly one copy of it. */
  lemma DeleteAt(s: seq<OtpRecord>, i: nat)
    requires i < |s|
    ensures multiset(s[..i] + s[i + 1..]) + multiset{s[i]} == multiset(s)
  {
    assert s == s[..i] + [s[i]] + s[i + 1..];
  }

  /** A code verifies at most as many times as it was stored: after one successful
      verification, a record stored once no longer matches. */
  lemma SingleUse(before: seq<OtpRecord>, after: seq<OtpRecord>, rec: OtpRecord)
    requires multiset(after) + multiset{rec} == multiset(before)
    requires multiset(before)[rec] == 1
    ensures rec !in after
  {
    assert multiset(after)[rec] == 0;
  }
}
