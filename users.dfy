/** The user table (backend/src/users/users.service.ts): registration with a hashed password
    and a forced role, and the two finders. Every failure is returned as a response value,
    never raised. */
module Users {
  import opened Wrappers
  import opened Seqs

  datatype Role = UserRole | AdminRole

  /** A stored user; `password` holds the hash, never the plain text. */
  datatype User = User(id: string, name: string, email: string, password: string, role: Role)

  /** The body of a registration request. */
  datatype RegisterRequest = RegisterRequest(name: string, email: string, password: string, role: Role)

  /** `{ success: true, data }` or `{ success: false, error }`. */
  datatype Response<+T> = Success(data: T) | Failure(error: string)

  function UserEmail(u: User): string
  {
    u.email
  }

  function UserId(u: User): string
  {
    u.id
  }

  /** `findOne({ email })`: the user registered under `email`, if any. */
  function FindEmail(users: seq<User>, email: string): (r: Option<User>)
    ensures r.Some? ==> r.value in users && r.value.email == email
    ensures r.None? <==> forall i :: 0 <= i < |users| ==> users[i].email != email
  {
    FindFirst(users, EmailIs(email))
  }

  function EmailIs(email: string): User -> bool
  {
    (u: User) => u.email == email
  }

  /** `findById`: the user stored under `id`, if any. */
  function FindId(users: seq<User>, id: string): (r: Option<User>)
    ensures r.Some? ==> r.value in users && r.value.id == id
    ensures r.None? <==> forall i :: 0 <= i < |users| ==> users[i].id != id
  {
    FindFirst(users, IdIs(id))
  }

  function IdIs(id: string): User -> bool
  {
    (u: User) => u.id == id
  }

  /** The user collection. `hash` stands for bcrypt's one-way hash; the salt is not modelled. */
  class UserService {
    var users: seq<User>
    const hash: string -> string

    /** The collection's unique index on `email`, and distinct document ids. */
    ghost predicate Valid()
      reads this
    {
      DistinctBy(users, UserEmail) && DistinctBy(users, UserId)
    }

    constructor(hashFn: string -> string)
      ensures Valid() && users == [] && hash == hashFn
    {
      users := [];
      hash := hashFn;
    }

    /** `create`. `lookupOk` and `saveOk` say whether the database lookup and the hashing
        and insertion succeed; any failure there is reported as 'Error creating user'. */
    method Create(dto: RegisterRequest, newId: string, lookupOk: bool, saveOk: bool)
      returns (r: Response<User>)
      requires Valid() && forall i :: 0 <= i < |users| ==> users[i].id != newId
      modifies this
      ensures Valid()
      ensures !lookupOk ==> r == Failure("Error creating user") && users == old(users)
      ensures lookupOk && FindEmail(old(users), dto.email).Some? ==>
        r == Failure("Email already exists") && users == old(users)
      ensures lookupOk && FindEmail(old(users), dto.email).None? && !saveOk ==>
        r == Failure("Error creating user") && users == old(users)
      ensures lookupOk && FindEmail(old(users), dto.email).None? && saveOk ==>
        r == Success(User(newId, dto.name, dto.email, hash(dto.password), UserRole))
        && users == old(users) + [r.data]
      ensures r.Success? ==> FindEmail(users, dto.email) == Some(r.data)
    {
      if !lookupOk {
        return Failure("Error creating user");
      }
      var existing := FindEmail(users, dto.email);
      if existing.Some? {
        return Failure("Email already exists");
      }
      if !saveOk {
        return Failure("Error creating user");
      }
      var user := User(newId, dto.name, dto.email, hash(dto.password), UserRole);
      CreatedIsFound(users, user, dto.email);
      users := users + [user];
      r := Success(user);
    }

    /** `findByEmail`: succeeds with the user or with no user; `ok` is the database outcome. */
    method FindByEmail(email: string, ok: bool) returns (r: Response<Option<User>>)
      ensures ok ==> r.Success? && r.data == FindEmail(users, email)
      ensures !ok ==> r == Failure("Error fetching user by email")
    {
      if !ok {
        return Failure("Error fetching user by email");
      }
      r := Success(FindEmail(users, email));
    }

    /** `findById`: the user, 'User not found', or the database failure. */
    method FindById(id: string, ok: bool) returns (r: Response<User>)
      ensures ok && FindId(users, id).Some? ==> r == Success(FindId(users, id).value)
      ensures ok && FindId(users, id).None? ==> r == Failure("User not found")
      ensures !ok ==> r == Failure("Error fetching user by ID")
    {
      if !ok {
        return Failure("Error fetching user by ID");
      }
      var found := FindId(users, id);
      if found.None? {
        return Failure("User not found");
      }
      r := Success(found.value);
    }
  }

  /** After a registration under a fresh email, looking the email up returns the new user, and
      every other email still finds what it found before. */
  lemma {:induction false} CreatedIsFound(users: seq<User>, u: User, email: string)
    requires FindEmail(users, u.email).None?
    ensures FindEmail(users + [u], u.email) == Some(u)
    ensures email != u.email ==> FindEmail(users + [u], email) == FindEmail(users, email)
  {
    if users == [] {
      assert [u][1..] == [];
    } else {
      assert (users + [u])[1..] == users[1..] + [u];
      CreatedIsFound(users[1..], u, email);
    }
  }
}
