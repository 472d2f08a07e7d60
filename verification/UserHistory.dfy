/** What the user operations do, told without their code: when each is accepted and what it leaves behind,
    and which account a user has after any run. */
module UserHistory {
  import opened Wrappers
  import opened TenantUsers

  /** The email as it is stored. */
  function Stored(email: string): string
  {
    Text.Lower(Text.Strip(email))
  }

  /** Only user and admin, and at least one of them. */
  ghost predicate AreRoles(roles: seq<Role>)
  {
    |roles| > 0 && forall k :: 0 <= k < |roles| ==> roles[k] == Member || roles[k] == Admin
  }

  /** Another user of the tenant has the email. */
  ghost predicate InUse(d: Directory, tenant: string, email: string, id: string)
  {
    exists other :: other in d.users && other != id && d.users[other].tenant == tenant && d.users[other].email == email
  }

  /** Nothing but this user's account is different. */
  ghost predicate OnlyUser(d: Directory, d': Directory, id: string, u: User)
  {
    d'.tenants == d.tenants && id in d'.users && d'.users[id] == u
    && forall other :: other != id ==>
         (other in d'.users <==> other in d.users) && (other in d.users ==> d'.users[other] == d.users[other])
  }

  ghost predicate SomeActiveAdmin(d: Directory, tenant: string)
  {
    exists id ::
      id in d.users && d.users[id].tenant == tenant && d.users[id].status == Active && Admin in d.users[id].roles
  }

  // ---------- single operations ----------

  /** A new user is accepted exactly with valid roles, in an existing tenant, with an email that is not in use
      there; then it has exactly these roles, that email, and is active, and nothing else changes. */
  lemma {:induction false} CreateDoes(d: Directory, tenant: string, email: string, roles: seq<Role>, id: string)
    requires id !in d.users
    ensures var r := Attempt(d, Create(tenant, email, roles, id));
            (r.Ok? <==> AreRoles(roles) && tenant in d.tenants && !InUse(d, tenant, Stored(email), id))
            && (r.Ok? ==> OnlyUser(d, r.value, id, User(tenant, Stored(email), roles, Active)))
            && (r.Err? ==> r.error == if !AreRoles(roles) then InvalidRoles
                                      else if tenant !in d.tenants then NoTenant else UserExists)
  {
    assert AreRoles(roles) <==> ValidRoles(roles);
  }

  /** A new tenant is accepted exactly if neither its name nor its slug is in use; its first user is an active
      admin. */
  lemma {:induction false} ProvisionDoes(d: Directory, name: string, slug: string, email: string, tenant: string,
                                         id: string)
    requires tenant !in d.tenants && id !in d.users
    ensures var r := Attempt(d, Provision(name, slug, email, tenant, id));
            (r.Ok? <==> forall t :: t in d.tenants ==> d.tenants[t].0 != name && d.tenants[t].1 != slug)
            && (r.Ok? ==> OnlyUser(d.(tenants := d.tenants[tenant := (name, slug)]), r.value, id,
                                   User(tenant, Stored(email), [Admin, Member], Active)))
            && (r.Err? ==> r.error == TenantExists)
  {
    assert TenantTaken(d, name, slug)
           <==> exists t :: t in d.tenants && (d.tenants[t].0 == name || d.tenants[t].1 == slug);
  }

  /** The account after a change: each named field new, each other one old. */
  function WithChange(u: User, c: Change): User
  {
    match (c.email, c.roles, c.status)
    case (None, None, None) => u
    case (Some(e), None, None) => u.(email := Stored(e))
    case (None, Some(r), None) => u.(roles := r)
    case (None, None, Some(s)) => u.(status := s)
    case (Some(e), Some(r), None) => u.(email := Stored(e), roles := r)
    case (Some(e), None, Some(s)) => u.(email := Stored(e), status := s)
    case (None, Some(r), Some(s)) => u.(roles := r, status := s)
    case (Some(e), Some(r), Some(s)) => u.(email := Stored(e), roles := r, status := s)
  }

  /** A change of a user is accepted exactly with valid roles and status, if the user is one of the tenant's,
      the tenant would keep an active admin, and the new email is not in use there; then exactly the named
      fields are new. */
  lemma {:induction false} UpdateDoes(d: Directory, tenant: string, id: string, c: Change)
    requires Administrable(d)
    ensures var r := Attempt(d, Update(tenant, id, c));
            (r.Ok? <==> (c.roles.Some? ==> AreRoles(c.roles.value))
                        && (c.status.Some? ==> c.status.value == Active || c.status.value == Disabled)
                        && id in d.users && d.users[id].tenant == tenant
                        && SomeActiveAdmin(d.(users := d.users[id := WithChange(d.users[id], c)]), tenant)
                        && (c.email.Some? ==> !InUse(d, tenant, Stored(c.email.value), id)))
            && (r.Ok? ==> OnlyUser(d, r.value, id, WithChange(d.users[id], c)))
            && (r.Err? ==>
                  r.error == if c.roles.Some? && !AreRoles(c.roles.value) then InvalidRoles
                             else if c.status.Some? && c.status.value.OtherStatus? then InvalidStatus
                             else if !(id in d.users && d.users[id].tenant == tenant) then NotFound
                             else if !SomeActiveAdmin(d.(users := d.users[id := WithChange(d.users[id], c)]), tenant)
                             then LastTenantAdmin
                             else UserExists)
  {
    assert c.roles.Some? ==> (AreRoles(c.roles.value) <==> ValidRoles(c.roles.value));
    if Has(d, tenant, id) {
      ChangedIs(d.users[id], c);
      OwnEmailIsFree(d, tenant, id);
      if (c.roles.Some? ==> ValidRoles(c.roles.value)) && (c.status.Some? ==> !c.status.value.OtherStatus?) {
        RefusedExactly(d, tenant, id, c);
      }
    }
  }

  lemma {:induction false} ChangedIs(u: User, c: Change)
    ensures Changed(u, c) == WithChange(u, c)
  {
  }

  lemma {:induction false} OwnEmailIsFree(d: Directory, tenant: string, id: string)
    requires Administrable(d) && Has(d, tenant, id)
    ensures !InUse(d, tenant, d.users[id].email, id)
  {
    assert forall other :: other in d.users && SameAccount(d.users[other], d.users[id]) ==> other == id;
  }

  lemma {:induction false} RefusedExactly(d: Directory, tenant: string, id: string, c: Change)
    requires Administrable(d) && Has(d, tenant, id)
    requires (c.roles.Some? ==> ValidRoles(c.roles.value)) && (c.status.Some? ==> !c.status.value.OtherStatus?)
    ensures TakesLastAdmin(d, tenant, id, c)
            <==> !SomeActiveAdmin(d.(users := d.users[id := WithChange(d.users[id], c)]), tenant)
  {
    UpdateRefusedExactly(d, tenant, id, c);
    ChangedIs(d.users[id], c);
    AdminsAre(d.(users := d.users[id := WithChange(d.users[id], c)]), tenant);
  }

  lemma {:induction false} AdminsAre(d: Directory, tenant: string)
    ensures SomeActiveAdmin(d, tenant) <==> ActiveAdmins(d, tenant) != {}
  {
    if SomeActiveAdmin(d, tenant) {
      var id :| id in d.users && d.users[id].tenant == tenant && d.users[id].status == Active
                && Admin in d.users[id].roles;
      assert id in ActiveAdmins(d, tenant);
    }
  }

  /** A user is deleted exactly if it is one of the tenant's and the tenant keeps an active admin. */
  lemma {:induction false} DeleteDoes(d: Directory, tenant: string, id: string)
    requires Administrable(d)
    ensures var r := Attempt(d, Delete(tenant, id));
            (r.Ok? <==> id in d.users && d.users[id].tenant == tenant
                        && SomeActiveAdmin(d.(users := d.users - {id}), tenant))
            && (r.Ok? ==> r.value == Directory(d.users - {id}, d.tenants))
            && (r.Err? ==>
                  r.error == if id in d.users && d.users[id].tenant == tenant then LastTenantAdmin else NotFound)
  {
    if Has(d, tenant, id) {
      DeleteRefusedExactly(d, tenant, id);
      AdminsAre(d.(users := d.users - {id}), tenant);
    }
  }

  // ---------- whole runs ----------

  /** The account that an accepted operation leaves a user with. */
  function Account(u: Option<User>, op: Op, id: string): Option<User>
  {
    match op
    case Provision(_, _, email, tenant, i) =>
      if i == id then Some(User(tenant, Stored(email), [Admin, Member], Active)) else u
    case Create(tenant, email, roles, i) => if i == id then Some(User(tenant, Stored(email), roles, Active)) else u
    case Update(_, i, c) => if i == id && u.Some? then Some(WithChange(u.value, c)) else u
    case Delete(_, i) => if i == id then None else u
  }

  /** The account that the accepted operations of a run leave a user with. */
  function AccountBy(d: Directory, ops: seq<Op>, id: string, u: Option<User>): Option<User>
    decreases ops
  {
    if ops == [] then u
    else AccountBy(Apply(d, Attempt(d, ops[0])), ops[1..], id,
                   if Attempt(d, ops[0]).Ok? then Account(u, ops[0], id) else u)
  }

  function UserOf(d: Directory, id: string): Option<User>
  {
    if id in d.users then Some(d.users[id]) else None
  }

  lemma {:induction false} OneOp(d: Directory, op: Op, id: string)
    requires Attempt(d, op).Ok?
    ensures UserOf(Attempt(d, op).value, id) == Account(UserOf(d, id), op, id)
  {
    if op.Update? && op.id == id {
      ChangedIs(d.users[id], op.c);
    }
  }

  /** Over all runs, a user exists and has the email, roles and status that the accepted operations on it gave
      it last; refused ones leave no trace. */
  lemma {:induction false} AccountsFollowOps(d: Directory, ops: seq<Op>, id: string)
    ensures UserOf(After(d, ops), id) == AccountBy(d, ops, id, UserOf(d, id))
    decreases ops
  {
    if ops != [] {
      if Attempt(d, ops[0]).Ok? {
        OneOp(d, ops[0], id);
      }
      AccountsFollowOps(Apply(d, Attempt(d, ops[0])), ops[1..], id);
    }
  }

  /** Whether the last accepted operation on the user that sets roles named the admin role. */
  function NamedAdmin(d: Directory, ops: seq<Op>, id: string, named: bool): bool
    decreases ops
  {
    if ops == [] then named
    else NamedAdmin(Apply(d, Attempt(d, ops[0])), ops[1..], id,
                    if Attempt(d, ops[0]).Ok? && Names(ops[0], id).Some? then Names(ops[0], id).value else named)
  }

  /** Whether the operation, if it sets this user's roles, names the admin role. */
  function Names(op: Op, id: string): Option<bool>
  {
    match op
    case Provision(_, _, _, _, i) => if i == id then Some(true) else None
    case Create(_, _, roles, i) => if i == id then Some(Admin in roles) else None
    case Update(_, i, c) => if i == id && c.roles.Some? then Some(Admin in c.roles.value) else None
    case Delete(_, i) => if i == id then Some(false) else None
  }

  lemma {:induction false} AdminFollows(d: Directory, ops: seq<Op>, id: string, u: Option<User>)
    requires u == UserOf(d, id)
    ensures NamedAdmin(d, ops, id, u.Some? && Admin in u.value.roles)
            <==> id in After(d, ops).users && Admin in After(d, ops).users[id].roles
    decreases ops
  {
    if ops != [] {
      var d' := Apply(d, Attempt(d, ops[0]));
      if Attempt(d, ops[0]).Ok? {
        OneOp(d, ops[0], id);
      }
      AdminFollows(d', ops[1..], id, UserOf(d', id));
    }
  }

  /** From the empty directory: a user is an admin exactly if the last accepted operation that set its roles
      said so, and it has not been deleted. */
  lemma {:induction false} AdminsWereNamed(ops: seq<Op>, id: string)
    ensures var d := Directory(map[], map[]);
            NamedAdmin(d, ops, id, false)
            <==> id in After(d, ops).users && Admin in After(d, ops).users[id].roles
  {
    AdminFollows(Directory(map[], map[]), ops, id, None);
  }
}
