/** The account store behind the authentication service
    (`UserService` over the `user` table): unique email, unique id, and a
    role that `create` always sets to `therapist`. The creation and update
    timestamps of a row are not modelled. */
module Users {
  import opened Wrappers

  datatype Role = Therapist | Admin

  /** A row of the `user` table. `password` holds whatever the caller
      passed to `create`; the authentication service passes a bcrypt hash. */
  datatype Account = Account(id: string, email: string, password: string, role: Role) {
    /** The `id`/`email`/`role` selection `create` returns. */
    function Identity(): UserIdentity {
      UserIdentity(id, email, role)
    }
  }

  /** What `create` returns: the row without its password. */
  datatype UserIdentity = UserIdentity(id: string, email: string, role: Role)

  /** The data `create` is called with. */
  datatype CreateUserData = CreateUserData(email: string, password: string)

  /** The insert broke the unique constraint on `email` or on `id`. */
  datatype StoreError = UniqueConstraintViolation

  /** The table, keyed by the unique column `email`. */
  type Table = map<string, Account>

  /** Every row is filed under its own email, and no two rows share an id. */
  ghost predicate WellFormed(t: Table) {
    && (forall e :: e in t ==> t[e].email == e)
    && (forall e1, e2 :: e1 in t && e2 in t && t[e1].id == t[e2].id ==> e1 == e2)
  }

  /** Whether some row already has primary key `id`. */
  predicate IdTaken(t: Table, id: string) {
    exists e :: e in t && t[e].id == id
  }

  /** `findUnique({ where: { email } })`: the one row whose email is
      `email`, or nothing when no row has it. */
  function Lookup(t: Table, email: string): (r: Option<Account>)
    requires WellFormed(t)
    ensures r.Some? <==> exists a :: a in t.Values && a.email == email
    ensures r.Some? ==> r.value in t.Values && r.value.email == email
    ensures r.Some? ==> forall a :: a in t.Values && a.email == email ==> a == r.value
  {
    if email in t then Some(t[email]) else None
  }

  /** `create({ data: { ...data, role: 'therapist' }, select: { id, email, role } })`
      on table `t`, with `id` the key the database generates: the new table
      and what the call returns. */
  function Insert(t: Table, data: CreateUserData, id: string): (out: (Result<UserIdentity, StoreError>, Table))
    requires WellFormed(t)
    ensures WellFormed(out.1)
    ensures out.0.Failure? <==> Lookup(t, data.email).Some? || IdTaken(t, id)
    ensures out.0.Failure? ==> out.1 == t
    ensures out.0.Success? ==>
      && Lookup(out.1, data.email) == Some(Account(id, data.email, data.password, Therapist))
      && out.0.value == UserIdentity(id, data.email, Therapist)
      && out.1.Keys == t.Keys + {data.email}
    ensures forall e :: e != data.email ==> Lookup(out.1, e) == Lookup(t, e)
  {
    if data.email in t || IdTaken(t, id) then
      (Failure(UniqueConstraintViolation), t)
    else
      var row := Account(id, data.email, data.password, Therapist);
      (Success(row.Identity()), t[data.email := row])
  }

  /** The store: one table that `create` writes and `findOne` reads. */
  class UserService {
    var table: Table

    ghost predicate Valid()
      reads this
    {
      WellFormed(table)
    }

    constructor ()
      ensures Valid() && table == map[]
    {
      table := map[];
    }

    /** Inserts a therapist account; `id` is the key the database generates. */
    method Create(data: CreateUserData, id: string) returns (r: Result<UserIdentity, StoreError>)
      requires Valid()
      modifies this
      ensures Valid()
      ensures (r, table) == Insert(old(table), data, id)
    {
      if data.email in table || IdTaken(table, id) {
        r := Failure(UniqueConstraintViolation);
      } else {
        var row := Account(id, data.email, data.password, Therapist);
        table := table[data.email := row];
        r := Success(row.Identity());
      }
    }

    /** `findOne({ email })`: `Lookup` on the current table; it reads the
        table and changes nothing. */
    function FindOne(email: string): (r: Option<Account>)
      reads this
      requires Valid()
      ensures r.Some? <==> exists a :: a in table.Values && a.email == email
      ensures r.Some? ==> r.value in table.Values && r.value.email == email
      ensures r.Some? ==> forall a :: a in table.Values && a.email == email ==> a == r.value
    {
      Lookup(table, email)
    }
  }
}
