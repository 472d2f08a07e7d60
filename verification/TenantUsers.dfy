/** The users of all tenants: provisioning a tenant with its first admin, and creating, changing and
    deleting users so that every tenant keeps an active admin. */
module TenantUsers {
  import opened Wrappers
  import Text

  /** Only user and admin are allowed roles, only active and disabled allowed statuses. */
  datatype Role = Member | Admin | OtherRole(name: string)

  datatype Status = Active | Disabled | OtherStatus(name: string)

  datatype User = User(tenant: string, email: string, roles: seq<Role>, status: Status)

  /** Users by id, and the names and slugs of the tenants by id. */
  datatype Directory = Directory(users: map<string, User>, tenants: map<string, (string, string)>)

  datatype Error = UserExists | TenantExists | LastTenantAdmin | InvalidRoles | InvalidStatus | NotFound | NoTenant

  function Normalized(email: string): string
  {
    Text.Lower(Text.Strip(email))
  }

  /** Roles are a non-empty part of user and admin. */
  predicate ValidRoles(roles: seq<Role>)
  {
    roles != [] && forall r :: r in roles ==> !r.OtherRole?
  }

  predicate IsActiveAdmin(u: User)
  {
    u.status == Active && Admin in u.roles
  }

  function ActiveAdmins(d: Directory, tenant: string): set<string>
  {
    set id | id in d.users && d.users[id].tenant == tenant && IsActiveAdmin(d.users[id])
  }

  /** A row of the tenant with this id. */
  predicate Has(d: Directory, tenant: string, id: string)
  {
    id in d.users && d.users[id].tenant == tenant
  }

  /** The unique constraint: another user of the tenant has the email already. */
  predicate EmailTaken(d: Directory, tenant: string, email: string, except: string)
  {
    exists id :: id in d.users && id != except && d.users[id].tenant == tenant && d.users[id].email == email
  }

  predicate TenantTaken(d: Directory, name: string, slug: string)
  {
    exists id :: id in d.tenants && Clash(d.tenants[id], (name, slug))
  }

  // ---------- the operations as functions ----------

  /** A new tenant and its first admin, both with fresh ids. */
  function Provisioned(d: Directory, name: string, slug: string, email: string, tenant: string, id: string)
    : Result<Directory, Error>
  {
    if TenantTaken(d, name, slug) then Err(TenantExists)
    else Ok(Directory(d.users[id := User(tenant, Normalized(email), [Admin, Member], Active)],
                      d.tenants[tenant := (name, slug)]))
  }

  function Created(d: Directory, tenant: string, email: string, roles: seq<Role>, id: string): Result<Directory, Error>
  {
    if !ValidRoles(roles) then Err(InvalidRoles)
    else if tenant !in d.tenants then Err(NoTenant)
    else if EmailTaken(d, tenant, Normalized(email), id) then Err(UserExists)
    else Ok(d.(users := d.users[id := User(tenant, Normalized(email), roles, Active)]))
  }

  datatype Change = Change(email: Option<string>, roles: Option<seq<Role>>, status: Option<Status>)

  function Changed(u: User, c: Change): User
  {
    User(u.tenant,
         if c.email.Some? then Normalized(c.email.value) else u.email,
         if c.roles.Some? then c.roles.value else u.roles,
         if c.status.Some? then c.status.value else u.status)
  }

  /** The guard: an active admin would stop being one, and there is no other. */
  predicate TakesLastAdmin(d: Directory, tenant: string, id: string, c: Change)
    requires Has(d, tenant, id)
  {
    IsActiveAdmin(d.users[id])
    && ((c.roles.Some? && Admin !in c.roles.value) || c.status == Some(Disabled))
    && ActiveAdmins(d, tenant) - {id} == {}
  }

  function Updated(d: Directory, tenant: string, id: string, c: Change): Result<Directory, Error>
  {
    if c.roles.Some? && !ValidRoles(c.roles.value) then Err(InvalidRoles)
    else if c.status.Some? && c.status.value.OtherStatus? then Err(InvalidStatus)
    else if !Has(d, tenant, id) then Err(NotFound)
    else if TakesLastAdmin(d, tenant, id, c) then Err(LastTenantAdmin)
    else if c.email.Some? && Normalized(c.email.value) != d.users[id].email
            && EmailTaken(d, tenant, Normalized(c.email.value), id) then Err(UserExists)
    else Ok(d.(users := d.users[id := Changed(d.users[id], c)]))
  }

  function Removed(d: Directory, tenant: string, id: string): Result<Directory, Error>
  {
    if !Has(d, tenant, id) then Err(NotFound)
    else if IsActiveAdmin(d.users[id]) && ActiveAdmins(d, tenant) - {id} == {} then Err(LastTenantAdmin)
    else Ok(d.(users := d.users - {id}))
  }

  // ---------- the service ----------

  /** Apply an accepted change; a refused one changes nothing. */
  function Apply(d: Directory, r: Result<Directory, Error>): Directory
  {
    if r.Ok? then r.value else d
  }

  class UserService {
    var d: Directory

    constructor ()
      ensures d == Directory(map[], map[])
    {
      d := Directory(map[], map[]);
    }

    method ProvisionTenant(name: string, slug: string, email: string, tenant: string, id: string)
      returns (error: Option<Error>)
      modifies this
      ensures var r := Provisioned(old(d), name, slug, email, tenant, id);
              d == Apply(old(d), r) && error == if r.Ok? then None else Some(r.error)
    {
      if TenantTaken(d, name, slug) {
        return Some(TenantExists);
      }
      d := d.(tenants := d.tenants[tenant := (name, slug)]);
      d := d.(users := d.users[id := User(tenant, Normalized(email), [Admin, Member], Active)]);
      error := None;
    }

    method CreateUser(tenant: string, email: string, roles: seq<Role>, id: string) returns (error: Option<Error>)
      modifies this
      ensures var r := Created(old(d), tenant, email, roles, id);
              d == Apply(old(d), r) && error == if r.Ok? then None else Some(r.error)
    {
      if !ValidRoles(roles) {
        return Some(InvalidRoles);
      }
      if tenant !in d.tenants {
        return Some(NoTenant);
      }
      var normalized := Normalized(email);
      if EmailTaken(d, tenant, normalized, id) {
        return Some(UserExists);
      }
      d := d.(users := d.users[id := User(tenant, normalized, roles, Active)]);
      error := None;
    }

    /** Field by field, all or nothing. */
    method UpdateUser(tenant: string, id: string, c: Change) returns (error: Option<Error>)
      modifies this
      ensures var r := Updated(old(d), tenant, id, c);
              d == Apply(old(d), r) && error == if r.Ok? then None else Some(r.error)
    {
      if c.roles.Some? && !ValidRoles(c.roles.value) {
        return Some(InvalidRoles);
      }
      if c.status.Some? && c.status.value.OtherStatus? {
        return Some(InvalidStatus);
      }
      if !Has(d, tenant, id) {
        return Some(NotFound);
      }
      var existing := d.users[id];
      var losesAdmin := c.roles.Some? && Admin !in c.roles.value;
      if IsActiveAdmin(existing) && (losesAdmin || c.status == Some(Disabled)) {
        var others := |ActiveAdmins(d, tenant) - {id}|;
        if others == 0 {
          return Some(LastTenantAdmin);
        }
      }
      var u := existing;
      if c.email.Some? && Normalized(c.email.value) != existing.email {
        if EmailTaken(d, tenant, Normalized(c.email.value), id) {
          return Some(UserExists);
        }
        u := u.(email := Normalized(c.email.value));
      }
      if c.roles.Some? {
        u := u.(roles := c.roles.value);
      }
      if c.status.Some? {
        u := u.(status := c.status.value);
      }
      d := d.(users := d.users[id := u]);
      error := None;
    }

    method DeleteUser(tenant: string, id: string) returns (error: Option<Error>)
      modifies this
      ensures var r := Removed(old(d), tenant, id);
              d == Apply(old(d), r) && error == if r.Ok? then None else Some(r.error)
    {
      if !Has(d, tenant, id) {
        return Some(NotFound);
      }
      if IsActiveAdmin(d.users[id]) {
        var others := |ActiveAdmins(d, tenant) - {id}|;
        if others == 0 {
          return Some(LastTenantAdmin);
        }
      }
      d := d.(users := d.users - {id});
      error := None;
    }
  }

  // ---------- what every run keeps ----------

  predicate SameAccount(u: User, v: User)
  {
    u.tenant == v.tenant && u.email == v.email
  }

  ghost predicate UniqueEmails(d: Directory)
  {
    forall a, b :: a in d.users && b in d.users && SameAccount(d.users[a], d.users[b]) ==> a == b
  }

  predicate Clash(a: (string, string), b: (string, string))
  {
    a.0 == b.0 || a.1 == b.1
  }

  ghost predicate UniqueTenants(d: Directory)
  {
    forall a, b :: a in d.tenants && b in d.tenants && Clash(d.tenants[a], d.tenants[b]) ==> a == b
  }

  /** Every tenant has an active admin; no two users of a tenant share an email, no two tenants a name or
      slug; every user belongs to a tenant and has valid roles. */
  ghost predicate Administrable(d: Directory)
  {
    (forall tenant :: tenant in d.tenants ==> ActiveAdmins(d, tenant) != {})
    && UniqueEmails(d) && UniqueTenants(d)
    && forall id :: id in d.users ==> d.users[id].tenant in d.tenants && ValidRoles(d.users[id].roles)
  }

  datatype Op =
    | Provision(name: string, slug: string, email: string, tenant: string, id: string)
    | Create(tenant: string, email: string, roles: seq<Role>, id: string)
    | Update(tenant: string, id: string, c: Change)
    | Delete(tenant: string, id: string)

  /** New ids are fresh, as random ones are. */
  predicate Fresh(d: Directory, op: Op)
  {
    match op
    case Provision(_, _, _, tenant, id) => tenant !in d.tenants && id !in d.users
    case Create(_, _, _, id) => id !in d.users
    case _ => true
  }

  function Attempt(d: Directory, op: Op): Result<Directory, Error>
  {
    match op
    case Provision(name, slug, email, tenant, id) => Provisioned(d, name, slug, email, tenant, id)
    case Create(tenant, email, roles, id) => Created(d, tenant, email, roles, id)
    case Update(tenant, id, c) => Updated(d, tenant, id, c)
    case Delete(tenant, id) => Removed(d, tenant, id)
  }

  lemma {:induction false} AdminStays(d: Directory, d': Directory, tenant: string, admin: string)
    requires admin in ActiveAdmins(d, tenant) && admin in d'.users && d'.users[admin] == d.users[admin]
    ensures admin in ActiveAdmins(d', tenant)
  {
  }

  lemma {:induction false} ProvisionKeepsUnique(d: Directory, op: Op)
    requires Administrable(d) && Fresh(d, op) && op.Provision? && Attempt(d, op).Ok?
    ensures UniqueEmails(Attempt(d, op).value) && UniqueTenants(Attempt(d, op).value)
  {
    assert forall id :: id in d.tenants ==> !Clash(d.tenants[id], (op.name, op.slug));
    assert forall id :: id in d.users ==> d.users[id].tenant != op.tenant;
  }

  lemma {:induction false} CreateKeepsUnique(d: Directory, op: Op)
    requires Administrable(d) && Fresh(d, op) && op.Create? && Attempt(d, op).Ok?
    ensures UniqueEmails(Attempt(d, op).value)
  {
    assert forall id :: id in d.users && id != op.id && d.users[id].tenant == op.tenant
                        ==> d.users[id].email != Normalized(op.email);
  }

  lemma {:induction false} ProvisionKeeps(d: Directory, op: Op)
    requires Administrable(d) && Fresh(d, op) && op.Provision? && Attempt(d, op).Ok?
    ensures Administrable(Attempt(d, op).value)
  {
    var d' := Attempt(d, op).value;
    forall tenant | tenant in d'.tenants ensures ActiveAdmins(d', tenant) != {} {
      if tenant == op.tenant {
        assert op.id in ActiveAdmins(d', tenant);
      } else {
        var admin :| admin in ActiveAdmins(d, tenant);
        AdminStays(d, d', tenant, admin);
      }
    }
    ProvisionKeepsUnique(d, op);
  }

  lemma {:induction false} CreateKeeps(d: Directory, op: Op)
    requires Administrable(d) && Fresh(d, op) && op.Create? && Attempt(d, op).Ok?
    ensures Administrable(Attempt(d, op).value)
  {
    var d' := Attempt(d, op).value;
    forall tenant | tenant in d'.tenants ensures ActiveAdmins(d', tenant) != {} {
      var admin :| admin in ActiveAdmins(d, tenant);
      AdminStays(d, d', tenant, admin);
    }
    CreateKeepsUnique(d, op);
  }

  lemma {:induction false} ReplaceKeepsAdmins(d: Directory, id: string, u: User, tenant: string)
    requires Administrable(d) && tenant in d.tenants && id in d.users && u.tenant == d.users[id].tenant
    requires (u.tenant == tenant && IsActiveAdmin(d.users[id]) && !IsActiveAdmin(u))
             ==> ActiveAdmins(d, tenant) - {id} != {}
    ensures ActiveAdmins(d.(users := d.users[id := u]), tenant) != {}
  {
    var d' := d.(users := d.users[id := u]);
    var admin :| admin in ActiveAdmins(d, tenant);
    if admin != id {
      AdminStays(d, d', tenant, admin);
    } else if IsActiveAdmin(u) {
      assert id in ActiveAdmins(d', tenant);
    } else {
      var other :| other in ActiveAdmins(d, tenant) - {id};
      AdminStays(d, d', tenant, other);
    }
  }

  lemma {:induction false} UpdateKeeps(d: Directory, op: Op)
    requires Administrable(d) && op.Update? && Attempt(d, op).Ok?
    ensures Administrable(Attempt(d, op).value)
  {
    EmailsStayUnique(d, op);
    var u := Changed(d.users[op.id], op.c);
    var d' := Attempt(d, op).value;
    assert ValidRoles(u.roles);
    forall tenant | tenant in d'.tenants ensures ActiveAdmins(d', tenant) != {} {
      ReplaceKeepsAdmins(d, op.id, u, tenant);
    }
  }

  lemma {:induction false} EmailsStayUnique(d: Directory, op: Op)
    requires Administrable(d) && op.Update? && Attempt(d, op).Ok?
    ensures UniqueEmails(Attempt(d, op).value)
  {
    var d' := Attempt(d, op).value;
    forall id | id in d.users && id != op.id && d.users[id].tenant == op.tenant
      ensures d.users[id].email != d'.users[op.id].email
    {
      if d'.users[op.id].email != d.users[op.id].email {
        assert !EmailTaken(d, op.tenant, d'.users[op.id].email, op.id);
      }
    }
  }

  lemma {:induction false} DeleteKeeps(d: Directory, op: Op)
    requires Administrable(d) && op.Delete? && Attempt(d, op).Ok?
    ensures Administrable(Attempt(d, op).value)
  {
    var d' := Attempt(d, op).value;
    forall tenant | tenant in d'.tenants ensures ActiveAdmins(d', tenant) != {} {
      var admin :| admin in ActiveAdmins(d, tenant);
      if admin != op.id {
        AdminStays(d, d', tenant, admin);
      } else {
        var other :| other in ActiveAdmins(d, tenant) - {op.id};
        AdminStays(d, d', tenant, other);
      }
    }
  }

  function After(d: Directory, ops: seq<Op>): Directory
    decreases ops
  {
    if ops == [] then d else After(Apply(d, Attempt(d, ops[0])), ops[1..])
  }

  ghost predicate AllFresh(d: Directory, ops: seq<Op>)
    decreases ops
  {
    ops == [] || (Fresh(d, ops[0]) && AllFresh(Apply(d, Attempt(d, ops[0])), ops[1..]))
  }

  /** From an empty directory, any sequence of operations over any tenants, accepted or refused, leaves
      every tenant with an active admin, and emails unique within each tenant. */
  lemma {:induction false} TenantsStayAdministrable(d: Directory, ops: seq<Op>)
    requires Administrable(d) && AllFresh(d, ops)
    ensures Administrable(After(d, ops))
    decreases ops
  {
    if ops != [] {
      var op := ops[0];
      if Attempt(d, op).Ok? {
        match op
        case Provision(_, _, _, _, _) => ProvisionKeeps(d, op);
        case Create(_, _, _, _) => CreateKeeps(d, op);
        case Update(_, _, _) => UpdateKeeps(d, op);
        case Delete(_, _) => DeleteKeeps(d, op);
      }
      TenantsStayAdministrable(Apply(d, Attempt(d, op)), ops[1..]);
    }
  }

  lemma {:induction false} EmptyIsAdministrable()
    ensures Administrable(Directory(map[], map[]))
  {
  }

  // ---------- the guard refuses no more than it must ----------

  /** A change of an existing user is refused for the last admin's sake exactly if carrying it out would
      leave the tenant without an active admin. */
  lemma {:induction false} UpdateRefusedExactly(d: Directory, tenant: string, id: string, c: Change)
    requires Administrable(d) && Has(d, tenant, id)
    requires (c.roles.Some? ==> ValidRoles(c.roles.value)) && (c.status.Some? ==> !c.status.value.OtherStatus?)
    ensures Updated(d, tenant, id, c) == Err(LastTenantAdmin)
            <==> ActiveAdmins(d.(users := d.users[id := Changed(d.users[id], c)]), tenant) == {}
  {
    var d' := d.(users := d.users[id := Changed(d.users[id], c)]);
    assert ActiveAdmins(d', tenant) - {id} == ActiveAdmins(d, tenant) - {id};
    assert id in ActiveAdmins(d', tenant) <==> IsActiveAdmin(d'.users[id]);
    assert id in ActiveAdmins(d, tenant) <==> IsActiveAdmin(d.users[id]);
    assert ActiveAdmins(d', tenant) == {} <==> id !in ActiveAdmins(d', tenant) && ActiveAdmins(d', tenant) - {id} == {};
    assert tenant in d.tenants && ActiveAdmins(d, tenant) != {};
    assert ActiveAdmins(d, tenant) - {id} == {} ==> ActiveAdmins(d, tenant) == {id} && IsActiveAdmin(d.users[id]) by {
      var admin :| admin in ActiveAdmins(d, tenant);
    }
  }

  /** So is a deletion. */
  lemma {:induction false} DeleteRefusedExactly(d: Directory, tenant: string, id: string)
    requires Administrable(d) && Has(d, tenant, id)
    ensures Removed(d, tenant, id) == Err(LastTenantAdmin) <==> ActiveAdmins(d.(users := d.users - {id}), tenant) == {}
  {
    var d' := d.(users := d.users - {id});
    assert ActiveAdmins(d', tenant) == ActiveAdmins(d, tenant) - {id};
    assert tenant in d.tenants && ActiveAdmins(d, tenant) != {};
    assert ActiveAdmins(d, tenant) - {id} == {} ==> IsActiveAdmin(d.users[id]) by {
      var admin :| admin in ActiveAdmins(d, tenant);
    }
  }

  /** What is done in one tenant touches no user of another. */
  lemma {:induction false} OtherTenantsUntouched(d: Directory, op: Op, id: string)
    requires Fresh(d, op) && id in d.users && d.users[id].tenant != op.tenant
    ensures id in Apply(d, Attempt(d, op)).users && Apply(d, Attempt(d, op)).users[id] == d.users[id]
  {
  }
}
