/**
 * The account routes: registration with its schema and unique e-mail,
 * login that fails the same way for an unknown address and a wrong
 * password, the `/me` summary counts, the profile merge and the password
 * change guard chain.
 */
module Auth {
  import opened Common
  import opened Schema
  import opened Collections
  import opened Text

  // ----- schemas -----

  /**
   * An approximation of zod's e-mail check: one '@' with text on both
   * sides, a '.' inside the domain, and no white space.
   */
  predicate IsEmail(s: string)
  {
    && (exists i :: 0 < i < |s| && s[i] == '@'
         && (forall j :: 0 <= j < |s| && j != i ==> s[j] != '@')
         && (exists d :: i + 1 < d < |s| - 1 && s[d] == '.'))
    && (forall j :: 0 <= j < |s| ==> !IsJsSpace(s[j]))
  }

  /** `req.body` of a registration; an absent field is `None`. */
  datatype RegisterBody = RegisterBody(
    email: Option<string>, password: Option<string>, name: Option<string>,
    company: Option<string>, phone: Option<string>)

  datatype Registration = Registration(email: string, password: string, name: string, company: Option<string>, phone: Option<string>)

  /** `registerSchema.parse`: a valid e-mail, a password of at least 8 characters, a name of at least 2. */
  function ParseRegister(b: RegisterBody): (r: Option<Registration>)
    ensures r.Some? <==>
      && b.email.Some? && IsEmail(b.email.value)
      && b.password.Some? && |b.password.value| >= 8
      && b.name.Some? && |b.name.value| >= 2
    ensures r.Some? ==> r.value == Registration(b.email.value, b.password.value, b.name.value, b.company, b.phone)
  {
    if b.email.Some? && IsEmail(b.email.value) && b.password.Some? && |b.password.value| >= 8
       && b.name.Some? && |b.name.value| >= 2
    then Some(Registration(b.email.value, b.password.value, b.name.value, b.company, b.phone))
    else None
  }

  /** `req.body` of a login. */
  datatype LoginBody = LoginBody(email: Option<string>, password: Option<string>)

  /** `loginSchema`: a valid e-mail and a non-empty password. */
  predicate LoginBodyValid(b: LoginBody)
  {
    b.email.Some? && IsEmail(b.email.value) && b.password.Some? && |b.password.value| >= 1
  }

  // ----- users -----

  /** The fields the routes `select` for the client: never the password digest. */
  datatype Account = Account(id: Id, email: string, name: string, company: Option<string>, role: Role)

  function AccountOf(u: User): Account
  {
    Account(u.id, u.email, u.name, u.company, u.role)
  }

  function HasEmail(email: string): User -> bool
  {
    (u: User) => u.email == email
  }

  /** `findUnique({ where: { email } })`. */
  function FindByEmail(users: seq<User>, email: string): (r: Option<nat>)
    ensures r.Some? ==> r.value < |users| && users[r.value].email == email
    ensures r.None? ==> forall i :: 0 <= i < |users| ==> users[i].email != email
  {
    FindIndex(users, HasEmail(email))
  }

  /** With unique addresses the lookup finds the one user holding the address. */
  lemma FindByEmailUnique(users: seq<User>, k: nat)
    requires UsersValid(users) && k < |users|
    ensures FindByEmail(users, users[k].email) == Some(k)
  {
  }

  /** The row a registration creates: a CLIENT holding the digest of the password and the provider's customer id. */
  function NewUser(id: Id, data: Registration, customer: string): (u: User)
    ensures u.id == id && u.email == data.email && u.name == data.name && u.role == Client
    ensures u.password == Hash(data.password) && u.stripeId == Some(customer)
    ensures u.company == data.company && u.phone == data.phone
  {
    User(id, data.email, Hash(data.password), data.name, data.company, data.phone, Client, Some(customer))
  }

  /** What `stripe.customers.create` is asked for: the address, the name and `metadata.company` (`''` when falsy). */
  datatype CustomerCreate = CustomerCreate(email: string, name: string, company: string)

  /**
   * `POST /api/auth/register`. `customer` is the id the payment provider
   * returns for the new customer, `None` when that call fails; `sent` is
   * what the handler asked the provider for, `None` when a 400 answered first.
   */
  method Register(db: Db, body: RegisterBody, customer: Option<string>) returns (r: Reply<Account>, sent: Option<CustomerCreate>)
    requires db.Valid()
    modifies db`users
    ensures db.Valid()
    ensures ParseRegister(body).None? ==> r == Err(400, ValidationFailed) && sent.None?
    ensures ParseRegister(body).Some? && FindByEmail(old(db.users), body.email.value).Some? ==>
      r == Err(400, "Email already registered") && sent.None?
    ensures ParseRegister(body).Some? && FindByEmail(old(db.users), body.email.value).None? ==>
      var data := ParseRegister(body).value;
      sent == Some(CustomerCreate(data.email, data.name, if Truthy(data.company) then data.company.value else ""))
    ensures ParseRegister(body).Some? && FindByEmail(old(db.users), body.email.value).None? && customer.None? ==>
      r == Err(500, Forwarded)
    ensures r.Err? ==> db.users == old(db.users)
    ensures r.Ok? <==> ParseRegister(body).Some? && FindByEmail(old(db.users), body.email.value).None? && customer.Some?
    ensures r.Ok? ==>
      var u := NewUser(|old(db.users)|, ParseRegister(body).value, customer.value);
      db.users == old(db.users) + [u] && r == Ok(201, AccountOf(u))
  {
    var data := ParseRegister(body);
    if data.None? {
      return Err(400, ValidationFailed), None;
    }
    if FindByEmail(db.users, data.value.email).Some? {
      return Err(400, "Email already registered"), None;
    }
    sent := Some(CustomerCreate(data.value.email, data.value.name, if Truthy(data.value.company) then data.value.company.value else ""));
    if customer.None? {
      return Err(500, Forwarded), sent;
    }
    var u := NewUser(|db.users|, data.value, customer.value);
    db.users := db.users + [u];
    r := Ok(201, AccountOf(u));
  }

  /** `POST /api/auth/login`: the same 401 for an unknown address and for a wrong password. */
  function Login(users: seq<User>, b: LoginBody): (r: Reply<Account>)
    ensures !LoginBodyValid(b) ==> r == Err(400, ValidationFailed)
    ensures r.Ok? ==> r.code == 200
  {
    if !LoginBodyValid(b) then Err(400, ValidationFailed)
    else match FindByEmail(users, b.email.value)
      case None => Err(401, "Invalid credentials")
      case Some(k) =>
        if !Verify(b.password.value, users[k].password) then Err(401, "Invalid credentials")
        else Ok(200, AccountOf(users[k]))
  }

  /** Login succeeds exactly for a stored address whose digest the password verifies, and then names that user. */
  lemma LoginSucceedsIff(users: seq<User>, b: LoginBody)
    requires UsersValid(users)
    ensures Login(users, b).Ok? <==>
      LoginBodyValid(b) && exists k :: 0 <= k < |users| && users[k].email == b.email.value && Verify(b.password.value, users[k].password)
    ensures Login(users, b).Ok? ==> forall k :: 0 <= k < |users| && users[k].email == b.email.value ==>
      Login(users, b).value == AccountOf(users[k])
  {
    if LoginBodyValid(b) {
      forall k | 0 <= k < |users| && users[k].email == b.email.value
        ensures FindByEmail(users, b.email.value) == Some(k)
      {
        FindByEmailUnique(users, k);
      }
    }
  }

  /** Every failure of a well-formed login is the one uniform answer. */
  lemma LoginFailsUniformly(users: seq<User>, b: LoginBody)
    requires LoginBodyValid(b)
    ensures Login(users, b).Err? ==> Login(users, b) == Err(401, "Invalid credentials")
    ensures FindByEmail(users, b.email.value).None? ==> Login(users, b) == Err(401, "Invalid credentials")
  {
  }

  /** Right after registering, the same address and password log in as the new user. */
  lemma RegisteredUserLogsIn(users: seq<User>, data: Registration, customer: string)
    requires UsersValid(users) && FindByEmail(users, data.email).None?
    requires IsEmail(data.email) && |data.password| >= 1
    ensures var u := NewUser(|users|, data, customer);
      Login(users + [u], LoginBody(Some(data.email), Some(data.password))) == Ok(200, AccountOf(u))
  {
    var u := NewUser(|users|, data, customer);
    var after := users + [u];
    assert after[|users|] == u;
    assert UsersValid(after);
    FindByEmailUnique(after, |users|);
  }

  // ----- /me -----

  function OpenTicketOf(id: Id): Ticket -> bool
  {
    (t: Ticket) => t.userId == id && (t.status == Open || t.status == InProgress)
  }

  function PendingInvoiceOf(id: Id): Invoice -> bool
  {
    (v: Invoice) => v.userId == id && v.status == Pending
  }

  function ActiveServiceOf(id: Id): ClientService -> bool
  {
    (c: ClientService) => c.userId == id && c.status == Active
  }

  /** The `_count` block of `GET /api/auth/me`. */
  datatype Summary = Summary(tickets: nat, invoices: nat, services: nat)

  function Counts(db: Db, id: Id): (r: Summary)
    reads db`users, db`tickets, db`invoices, db`services, db`clientServices
    ensures r.tickets == |Filter(db.tickets, OpenTicketOf(id))|
    ensures r.invoices == |Filter(db.invoices, PendingInvoiceOf(id))|
    ensures r.services == |Filter(db.clientServices, ActiveServiceOf(id))|
  {
    CountIsFilterLength(db.tickets, OpenTicketOf(id));
    CountIsFilterLength(db.invoices, PendingInvoiceOf(id));
    CountIsFilterLength(db.clientServices, ActiveServiceOf(id));
    Summary(Count(db.tickets, OpenTicketOf(id)), Count(db.invoices, PendingInvoiceOf(id)), Count(db.clientServices, ActiveServiceOf(id)))
  }

  /** The counts only see the caller's own rows in the counted states. */
  lemma {:induction false} CountOwnRows<T>(rows: seq<T>, p: T -> bool, q: T -> bool)
    requires forall i :: 0 <= i < |rows| ==> (p(rows[i]) ==> q(rows[i]))
    ensures Count(rows, p) <= Count(rows, q)
  {
    if |rows| > 0 {
      CountOwnRows(rows[1..], p, q);
    }
  }

  /** Closing a ticket of the caller takes it out of the open count. */
  lemma ClosingDropsOpenCount(tickets: seq<Ticket>, k: nat, id: Id)
    requires k < |tickets| && OpenTicketOf(id)(tickets[k])
    ensures Count(tickets[k := tickets[k].(status := Closed)], OpenTicketOf(id)) == Count(tickets, OpenTicketOf(id)) - 1
  {
    CountUpdate(tickets, k, tickets[k].(status := Closed), OpenTicketOf(id));
  }

  lemma {:induction false} CountUpdate<T>(rows: seq<T>, k: nat, x: T, p: T -> bool)
    requires k < |rows|
    ensures Count(rows[k := x], p) == Count(rows, p) - (if p(rows[k]) then 1 else 0) + (if p(x) then 1 else 0)
  {
    if k > 0 {
      CountUpdate(rows[1..], k - 1, x, p);
      assert rows[k := x][1..] == rows[1..][k - 1 := x];
    } else {
      assert rows[k := x][1..] == rows[1..];
    }
  }

  /** `GET /api/auth/me`: the caller's profile with the counts, `None` (a `null` user) when the row is gone. */
  function Me(db: Db, actor: Actor): (r: Option<(User, Summary)>)
    reads db
    ensures r.Some? <==> actor.id < |db.users|
    ensures r.Some? ==> r.value.0 == db.users[actor.id] && r.value.1 == Counts(db, actor.id)
  {
    if actor.id < |db.users| then Some((db.users[actor.id], Counts(db, actor.id))) else None
  }

  // ----- profile -----

  /** `req.body` of a profile update; an absent field is `None`. */
  datatype ProfileBody = ProfileBody(name: Option<string>, company: Option<string>, phone: Option<string>)

  /** The update's `data`: the name when truthy, company and phone whenever present (the empty string included). */
  function MergeProfile(u: User, b: ProfileBody): (r: User)
    ensures r.name == (if Truthy(b.name) then b.name.value else u.name)
    ensures b.company.Some? ==> r.company == b.company
    ensures b.company.None? ==> r.company == u.company
    ensures b.phone.Some? ==> r.phone == b.phone
    ensures b.phone.None? ==> r.phone == u.phone
    ensures r.id == u.id && r.email == u.email && r.password == u.password && r.role == u.role && r.stripeId == u.stripeId
  {
    u.(name := if Truthy(b.name) then b.name.value else u.name,
       company := if b.company.Some? then b.company else u.company,
       phone := if b.phone.Some? then b.phone else u.phone)
  }

  /** Applying the same profile update twice is applying it once. */
  lemma MergeProfileIdempotent(u: User, b: ProfileBody)
    ensures MergeProfile(MergeProfile(u, b), b) == MergeProfile(u, b)
  {
  }

  /** What the profile route sends to the payment provider's customer record. */
  datatype CustomerUpdate = CustomerUpdate(customer: string, name: string, company: string)

  /**
   * `PUT /api/auth/profile`. The row is written first; then, for a user
   * with a customer id, the provider is told (`providerOk` is whether that
   * call succeeds). A failing provider call is a 500 although the row has
   * already changed.
   */
  method UpdateProfile(db: Db, actor: Actor, body: ProfileBody, providerOk: bool)
    returns (r: Reply<Account>, sent: Option<CustomerUpdate>)
    requires db.Valid()
    modifies db`users
    ensures db.Valid()
    ensures actor.id >= |old(db.users)| ==> r == Err(500, Forwarded) && sent == None && db.users == old(db.users)
    ensures actor.id < |old(db.users)| ==>
      var before := old(db.users)[actor.id];
      var after := MergeProfile(before, body);
      && db.users == old(db.users)[actor.id := after]
      && (Truthy(before.stripeId) ==> sent == Some(CustomerUpdate(before.stripeId.value, after.name, after.company.GetOr(""))))
      && (!Truthy(before.stripeId) ==> sent == None)
      && (r.Err? <==> Truthy(before.stripeId) && !providerOk)
      && (r.Err? ==> r == Err(500, Forwarded))
      && (r.Ok? ==> r == Ok(200, AccountOf(after)))
  {
    sent := None;
    if actor.id >= |db.users| {
      return Err(500, Forwarded), None;
    }
    var before := db.users[actor.id];
    var after := MergeProfile(before, body);
    db.users := db.users[actor.id := after];
    if Truthy(before.stripeId) {
      sent := Some(CustomerUpdate(before.stripeId.value, after.name, after.company.GetOr("")));
      if !providerOk {
        return Err(500, Forwarded), sent;
      }
    }
    r := Ok(200, AccountOf(after));
  }

  // ----- password -----

  /** `req.body` of a password change. */
  datatype PasswordBody = PasswordBody(current: Option<string>, next: Option<string>)

  /**
   * `PUT /api/auth/password`. The guards run in order and only the last
   * branch writes: it replaces the stored digest and nothing else.
   */
  method ChangePassword(db: Db, actor: Actor, body: PasswordBody) returns (r: Reply<string>)
    requires db.Valid()
    modifies db`users
    ensures db.Valid()
    ensures !Truthy(body.current) || !Truthy(body.next) ==> r == Err(400, "Both passwords are required")
    ensures Truthy(body.current) && Truthy(body.next) && |body.next.value| < 8 ==>
      r == Err(400, "New password must be at least 8 characters")
    ensures Truthy(body.current) && Truthy(body.next) && |body.next.value| >= 8 ==>
      if actor.id >= |old(db.users)| then r == Err(500, Forwarded)
      else if !Verify(body.current.value, old(db.users)[actor.id].password) then
        r == Err(401, "Current password is incorrect")
      else
        && r == Ok(200, "Password updated successfully")
        && db.users == old(db.users)[actor.id := old(db.users)[actor.id].(password := Hash(body.next.value))]
    ensures r.Err? ==> db.users == old(db.users)
  {
    if !Truthy(body.current) || !Truthy(body.next) {
      return Err(400, "Both passwords are required");
    }
    if |body.next.value| < 8 {
      return Err(400, "New password must be at least 8 characters");
    }
    if actor.id >= |db.users| {
      return Err(500, Forwarded);
    }
    var u := db.users[actor.id];
    if !Verify(body.current.value, u.password) {
      return Err(401, "Current password is incorrect");
    }
    db.users := db.users[actor.id := u.(password := Hash(body.next.value))];
    r := Ok(200, "Password updated successfully");
  }

  /** After a change the new password logs in and a different old one no longer does. */
  lemma PasswordChangeSwapsLogin(users: seq<User>, k: nat, oldPassword: string, newPassword: string)
    requires UsersValid(users) && k < |users| && IsEmail(users[k].email)
    requires |oldPassword| >= 1 && |newPassword| >= 1 && oldPassword != newPassword
    ensures var after := users[k := users[k].(password := Hash(newPassword))];
      && Login(after, LoginBody(Some(users[k].email), Some(newPassword))) == Ok(200, AccountOf(users[k]))
      && Login(after, LoginBody(Some(users[k].email), Some(oldPassword))) == Err(401, "Invalid credentials")
  {
    var after := users[k := users[k].(password := Hash(newPassword))];
    assert UsersValid(after);
    FindByEmailUnique(after, k);
    HashInjective(oldPassword, newPassword);
  }
}
