/**
 * Roles, user profiles and the staff flag.
 *
 * The store holds the role catalog (`Rol`, unique by name), the users keyed
 * by username, and the profiles (`PerfilUsuario`, one per user, each naming
 * one role by key).  Saving a user or a profile fires the `post_save`
 * receivers once they are connected: `assign_staff_role_to_superuser` puts
 * every superuser on the "Staff" role with `is_staff` set, and
 * `sync_is_staff_with_rol` derives `is_staff` from the profile's role.  The
 * receivers save again, so they call each other; the methods below are that
 * recursion, read against the stored rows.
 */
module Accounts {
  import opened Common

  const StaffRole: string := "Staff"

  /** The roles `MainappConfig.ready` makes sure of, in order. */
  const DefaultRoles: seq<string> := ["Ingresante", "Usuario", "Staff"]

  datatype Account = Account(isActive: bool, isStaff: bool, isSuperuser: bool, password: string, email: string)

  datatype Outcome = Done | IntegrityError | ProtectedError | DoesNotExist

  /** `PerfilUsuario.__str__`: `"<username> - <role name>"`. */
  function PerfilStr(username: string, rolNombre: string): (s: string)
    ensures |s| == |username| + 3 + |rolNombre|
    ensures s[..|username|] == username && s[|username| + 3..] == rolNombre
    ensures s[|username|..|username| + 3] == " - "
  {
    username + " - " + rolNombre
  }

  /**
   * The staff flag after `sync_is_staff_with_rol` has run on a profile save:
   * unchanged without a "Staff" role; set when the profile is on it; cleared
   * otherwise, except that a superuser keeps it.
   */
  function SyncedFlag(a: Account, onStaff: bool, staffExists: bool): (r: bool)
    ensures !staffExists ==> r == a.isStaff
    ensures staffExists && !a.isSuperuser ==> r == onStaff
    ensures staffExists && a.isSuperuser ==> r == (onStaff || a.isStaff)
  {
    if !staffExists then a.isStaff
    else if onStaff then true
    else if a.isSuperuser then a.isStaff
    else false
  }

  /** A second profile save finds the flag already synced: the receiver writes nothing more. */
  lemma SyncedFlagSettles(a: Account, onStaff: bool, staffExists: bool)
    ensures SyncedFlag(a.(isStaff := SyncedFlag(a, onStaff, staffExists)), onStaff, staffExists) == SyncedFlag(a, onStaff, staffExists)
  {
  }

  /** Every role of `before` is still there under the same key. */
  ghost predicate Extends(before: map<string, nat>, after: map<string, nat>) {
    forall n | n in before :: n in after && after[n] == before[n]
  }

  lemma ExtendsTransitive(a: map<string, nat>, b: map<string, nat>, c: map<string, nat>)
    requires Extends(a, b) && Extends(b, c)
    ensures Extends(a, c)
  {
  }

  /** Role keys are distinct and allocated; every profile belongs to a user and names a role. */
  ghost predicate StoreInvariant(roles: map<string, nat>, nextRolId: nat, users: map<string, Account>, perfiles: map<string, nat>) {
    && (forall a, b | a in roles && b in roles && roles[a] == roles[b] :: a == b)
    && (forall n | n in roles :: roles[n] < nextRolId)
    && (forall u | u in perfiles :: u in users && perfiles[u] in roles.Values)
  }

  /** The first `n` of `a`, `b`, `c`, as a set. */
  function FirstOf3(a: string, b: string, c: string, n: nat): set<string> {
    if n == 0 then {} else if n == 1 then {a} else if n == 2 then {a, b} else {a, b, c}
  }

  /** The roles `Ready` has made sure of when the first `succeeded` of its calls went through. */
  function ReadyRoles(succeeded: nat): (r: set<string>)
    ensures succeeded >= |DefaultRoles| ==> r == {"Ingresante", "Usuario", "Staff"}
    ensures r <= {"Ingresante", "Usuario", "Staff"}
    ensures succeeded == 0 <==> r == {}
  {
    FirstOf3(DefaultRoles[0], DefaultRoles[1], DefaultRoles[2], succeeded)
  }

  class AuthStore {
    var roles: map<string, nat>
    var nextRolId: nat
    var users: map<string, Account>
    var perfiles: map<string, nat>
    var signalsConnected: bool

    ghost predicate Valid()
      reads this
    {
      StoreInvariant(roles, nextRolId, users, perfiles)
    }

    constructor ()
      ensures Valid() && roles == map[] && users == map[] && perfiles == map[] && !signalsConnected
    {
      roles, users, perfiles := map[], map[], map[];
      nextRolId := 1;
      signalsConnected := false;
    }

    /** The profile of `u` is on the "Staff" role. */
    predicate OnStaff(u: string)
      reads this
    {
      StaffRole in roles && u in perfiles && perfiles[u] == roles[StaffRole]
    }

    /**
     * How far user `u` is from what the receivers converge to: for a
     * superuser, role and flag still to set; otherwise whether the flag
     * disagrees with the role.  Every save inside the receivers lowers it.
     */
    ghost function Measure(u: string): nat
      reads this
      requires u in users
    {
      var a := users[u];
      if a.isSuperuser then (if OnStaff(u) then 0 else 2) + (if a.isStaff then 0 else 1)
      else if a.isStaff == OnStaff(u) then 0 else 1
    }

    /** `Rol.objects.get_or_create(nombre=name)`. */
    method GetOrCreateRol(name: string) returns (id: nat)
      requires Valid()
      modifies this`roles, this`nextRolId
      ensures Valid()
      ensures name in roles && id == roles[name]
      ensures name in old(roles) ==> roles == old(roles) && nextRolId == old(nextRolId)
      ensures name !in old(roles) ==> roles == old(roles)[name := old(nextRolId)] && nextRolId == old(nextRolId) + 1
      ensures roles.Keys == old(roles).Keys + {name}
      ensures forall n | n in old(roles) :: roles[n] == old(roles)[n]
      ensures forall u | u in perfiles :: OnStaff(u) == old(OnStaff(u))
    {
      if name in roles {
        id := roles[name];
      } else {
        id := nextRolId;
        roles := roles[name := id];
        nextRolId := nextRolId + 1;
        forall u | u in perfiles ensures perfiles[u] != id && perfiles[u] in roles.Values {
          var n :| n in old(roles) && old(roles)[n] == perfiles[u];
          assert roles[n] == perfiles[u];
        }
      }
    }

    /** `Rol.objects.create(nombre=name)`: the unique index refuses a second role of one name. */
    method CreateRol(name: string) returns (out: Outcome)
      requires Valid()
      modifies this`roles, this`nextRolId
      ensures Valid()
      ensures out == IntegrityError <==> name in old(roles)
      ensures out == IntegrityError ==> roles == old(roles)
      ensures out == Done ==> roles == old(roles)[name := old(nextRolId)]
    {
      if name in roles {
        return IntegrityError;
      }
      var _ := GetOrCreateRol(name);
      return Done;
    }

    /** Deleting a role: `on_delete=PROTECT` refuses while a profile names it. */
    method DeleteRol(name: string) returns (out: Outcome)
      requires Valid()
      modifies this`roles
      ensures Valid()
      ensures out == DoesNotExist <==> name !in old(roles)
      ensures out == ProtectedError <==> name in old(roles) && exists u | u in perfiles :: perfiles[u] == old(roles)[name]
      ensures out == Done ==> roles == old(roles) - {name}
      ensures out != Done ==> roles == old(roles)
    {
      if name !in roles {
        return DoesNotExist;
      }
      if exists u | u in perfiles :: perfiles[u] == roles[name] {
        return ProtectedError;
      }
      ghost var gone := roles[name];
      roles := roles - {name};
      forall u | u in perfiles ensures perfiles[u] in roles.Values {
        var n :| n in old(roles) && old(roles)[n] == perfiles[u];
        assert n != name;
        assert roles[n] == perfiles[u];
      }
      out := Done;
    }

    /**
     * `assign_staff_role_to_superuser`, fired by a save of user `u`.  A
     * superuser without a profile fails: `get_or_create(user=...)` inserts a
     * profile without a role, which the NOT NULL role column refuses.
     */
    method Assign(u: string) returns (ok: bool)
      requires Valid() && u in users && signalsConnected
      modifies this`roles, this`nextRolId, this`users, this`perfiles
      decreases Measure(u), 2
      ensures Valid() && u in users
      ensures Measure(u) <= old(Measure(u))
      ensures !old(users[u].isSuperuser) ==>
        ok && roles == old(roles) && users == old(users) && perfiles == old(perfiles)
      ensures !old(users[u].isSuperuser) || StaffRole in old(roles) ==> nextRolId == old(nextRolId)
      ensures old(users[u].isSuperuser) ==>
        roles == (if StaffRole in old(roles) then old(roles) else old(roles)[StaffRole := old(nextRolId)])
      ensures old(users[u].isSuperuser) && u !in old(perfiles) ==>
        !ok && users == old(users) && perfiles == old(perfiles)
      ensures old(users[u].isSuperuser) && u in old(perfiles) ==>
        ok && perfiles == old(perfiles)[u := roles[StaffRole]] && users == old(users)[u := old(users[u]).(isStaff := true)]
    {
      if !users[u].isSuperuser {
        return true;
      }
      var staffId := GetOrCreateRol(StaffRole);
      if u !in perfiles {
        return false;
      }
      if perfiles[u] != staffId {
        PerfilToStaff(u);
      }
      if !users[u].isStaff {
        SetStaffFlag(u, true);
      }
      return true;
    }

    /** `perfil.rol = staff_rol; perfil.save(update_fields=['rol'])` inside `Assign`. */
    method PerfilToStaff(u: string)
      requires Valid() && u in perfiles && signalsConnected
      requires users[u].isSuperuser && StaffRole in roles && perfiles[u] != roles[StaffRole]
      modifies this`roles, this`nextRolId, this`users, this`perfiles
      decreases Measure(u), 0
      ensures Valid() && u in users && Measure(u) <= old(Measure(u))
      ensures roles == old(roles) && nextRolId == old(nextRolId)
      ensures perfiles == old(perfiles)[u := roles[StaffRole]]
      ensures users == old(users)[u := old(users[u]).(isStaff := true)]
    {
      perfiles := perfiles[u := roles[StaffRole]];
      Sync(u);
    }

    /**
     * `sync_is_staff_with_rol`, fired by a save of the profile of `u`: the flag
     * becomes `SyncedFlag`, through a save of the user when it changes.
     */
    method Sync(u: string)
      requires Valid() && u in perfiles && signalsConnected
      modifies this`roles, this`nextRolId, this`users, this`perfiles
      decreases Measure(u), 1
      ensures Valid() && u in users && Measure(u) <= old(Measure(u))
      ensures roles == old(roles) && nextRolId == old(nextRolId) && perfiles == old(perfiles)
      ensures users == old(users)[u := old(users[u]).(isStaff := SyncedFlag(old(users[u]), old(OnStaff(u)), StaffRole in old(roles)))]
    {
      if StaffRole !in roles {
        return;
      }
      var shouldBeStaff := perfiles[u] == roles[StaffRole];
      if shouldBeStaff && !users[u].isStaff {
        SetStaffFlag(u, true);
      } else if !shouldBeStaff && users[u].isStaff && !users[u].isSuperuser {
        SetStaffFlag(u, false);
      }
    }

    /**
     * `user.is_staff = flag; user.save(update_fields=['is_staff'])` inside the
     * receivers; the flag always moves towards the role, so the save it fires
     * settles at once.
     */
    method SetStaffFlag(u: string, flag: bool)
      requires Valid() && u in perfiles && signalsConnected
      requires flag != users[u].isStaff && flag == OnStaff(u)
      requires users[u].isSuperuser ==> flag
      modifies this`roles, this`nextRolId, this`users, this`perfiles
      decreases Measure(u), 0
      ensures Valid() && u in users && Measure(u) <= old(Measure(u))
      ensures roles == old(roles) && nextRolId == old(nextRolId) && perfiles == old(perfiles)
      ensures users == old(users)[u := old(users[u]).(isStaff := flag)]
    {
      var updated := users[u].(isStaff := flag);
      users := users[u := updated];
      UpdateTwice(old(users), u, updated, updated);
      var ok := Assign(u);
    }

    /** Saving user `u` (create or update); `false` when a receiver raised. */
    method SaveUser(u: string, acct: Account) returns (ok: bool)
      requires Valid()
      modifies this`roles, this`nextRolId, this`users, this`perfiles
      ensures Valid() && u in users
      ensures !signalsConnected || !acct.isSuperuser ==>
        ok && roles == old(roles) && perfiles == old(perfiles) && users == old(users)[u := acct]
      ensures !signalsConnected || !acct.isSuperuser || StaffRole in old(roles) ==> nextRolId == old(nextRolId)
      ensures signalsConnected && acct.isSuperuser ==>
        roles == (if StaffRole in old(roles) then old(roles) else old(roles)[StaffRole := old(nextRolId)])
      ensures signalsConnected && acct.isSuperuser && u !in old(perfiles) ==>
        !ok && perfiles == old(perfiles) && users == old(users)[u := acct]
      ensures signalsConnected && acct.isSuperuser && u in old(perfiles) ==>
        ok && perfiles == old(perfiles)[u := roles[StaffRole]] && users == old(users)[u := acct.(isStaff := true)]
    {
      users := users[u := acct];
      ok := true;
      if signalsConnected {
        UpdateTwice(old(users), u, acct, acct.(isStaff := true));
        ok := Assign(u);
      }
    }

    /** `PerfilUsuario.objects.create(user=u, rol=<role rolId>)`. */
    method CreatePerfil(u: string, rolId: nat) returns (out: Outcome)
      requires Valid()
      modifies this`roles, this`nextRolId, this`users, this`perfiles
      ensures Valid()
      ensures out == IntegrityError <==> u !in old(users) || u in old(perfiles) || rolId !in old(roles).Values
      ensures out != IntegrityError ==> out == Done
      ensures out == IntegrityError ==> perfiles == old(perfiles) && users == old(users)
      ensures roles == old(roles)
      ensures out == Done ==> perfiles == old(perfiles)[u := rolId]
      ensures out == Done ==> users == old(users)[u := old(users[u]).(isStaff := SyncedAfter(old(users[u]), u, rolId))]
    {
      if u !in users || u in perfiles || rolId !in roles.Values {
        return IntegrityError;
      }
      WritePerfil(u, rolId);
      return Done;
    }

    /** `perfil.rol = <role rolId>; perfil.save()` for the existing profile of `u`. */
    method SetPerfilRol(u: string, rolId: nat) returns (out: Outcome)
      requires Valid()
      modifies this`roles, this`nextRolId, this`users, this`perfiles
      ensures Valid()
      ensures out == DoesNotExist <==> u !in old(perfiles)
      ensures out == IntegrityError <==> u in old(perfiles) && rolId !in old(roles).Values
      ensures out != ProtectedError
      ensures out != Done ==> perfiles == old(perfiles) && users == old(users)
      ensures roles == old(roles)
      ensures out == Done ==> perfiles == old(perfiles)[u := rolId]
      ensures out == Done ==> users == old(users)[u := old(users[u]).(isStaff := SyncedAfter(old(users[u]), u, rolId))]
    {
      if u !in perfiles {
        return DoesNotExist;
      }
      if rolId !in roles.Values {
        return IntegrityError;
      }
      WritePerfil(u, rolId);
      return Done;
    }

    /** The profile row written, then `post_save` on it. */
    method WritePerfil(u: string, rolId: nat)
      requires Valid() && u in users && rolId in roles.Values
      modifies this`roles, this`nextRolId, this`users, this`perfiles
      ensures Valid() && roles == old(roles)
      ensures perfiles == old(perfiles)[u := rolId]
      ensures users == old(users)[u := old(users[u]).(isStaff := SyncedAfter(old(users[u]), u, rolId))]
    {
      perfiles := perfiles[u := rolId];
      if signalsConnected {
        assert OnStaff(u) == (StaffRole in roles && rolId == roles[StaffRole]);
        Sync(u);
      } else {
        UpdateSame(users, u);
      }
    }

    /** The flag of `a` once a profile save has put it on role `rolId` (with the receivers connected or not). */
    function SyncedAfter(a: Account, u: string, rolId: nat): bool
      reads this
    {
      if signalsConnected then SyncedFlag(a, StaffRole in roles && rolId == roles[StaffRole], StaffRole in roles)
      else a.isStaff
    }

    /** Deleting user `u`: the profile goes with it (`on_delete=CASCADE`). */
    method DeleteUser(u: string)
      requires Valid()
      modifies this`users, this`perfiles
      ensures Valid()
      ensures users == old(users) - {u} && perfiles == old(perfiles) - {u}
    {
      users := users - {u};
      perfiles := perfiles - {u};
    }

    /** One `get_or_create` of `Ready`, seen through what it keeps. */
    method EnsureRol(name: string)
      requires Valid()
      modifies this`roles, this`nextRolId
      ensures Valid()
      ensures roles.Keys == old(roles).Keys + {name}
      ensures Extends(old(roles), roles)
      ensures name in old(roles) ==> roles == old(roles) && nextRolId == old(nextRolId)
    {
      var _ := GetOrCreateRol(name);
    }

    /**
     * `MainappConfig.ready`: the three `get_or_create` calls, of which the
     * first `succeeded` go through before a database error (swallowed) ends
     * the block; then the receivers are connected, unless importing them
     * fails (also swallowed).
     */
    method Ready(succeeded: nat, signalsImportOk: bool)
      requires Valid()
      modifies this`roles, this`nextRolId, this`signalsConnected
      ensures Valid()
      ensures forall x :: x in roles <==> x in old(roles) || x in ReadyRoles(succeeded)
      ensures Extends(old(roles), roles)
      ensures ReadyRoles(succeeded) <= old(roles).Keys ==> roles == old(roles) && nextRolId == old(nextRolId)
      ensures signalsConnected == (old(signalsConnected) || signalsImportOk)
    {
      EnsureRoles(DefaultRoles[0], DefaultRoles[1], DefaultRoles[2], succeeded);
      if signalsImportOk {
        signalsConnected := true;
      }
    }

    /** The `try` block of `Ready`: `get_or_create` of `a`, `b`, `c` until the error after the first `n`. */
    method EnsureRoles(a: string, b: string, c: string, n: nat)
      requires Valid()
      modifies this`roles, this`nextRolId
      ensures Valid()
      ensures forall x :: x in roles <==> x in old(roles) || x in FirstOf3(a, b, c, n)
      ensures Extends(old(roles), roles)
      ensures FirstOf3(a, b, c, n) <= old(roles).Keys ==> roles == old(roles) && nextRolId == old(nextRolId)
    {
      ghost var r0, n0 := roles, nextRolId;
      EnsureRolIf(a, n > 0);
      ghost var r1, n1 := roles, nextRolId;
      EnsureRolIf(b, n > 1);
      ExtendsTransitive(r0, r1, roles);
      ghost var r2, n2 := roles, nextRolId;
      EnsureRolIf(c, n > 2);
      ExtendsTransitive(r0, r2, roles);
      if FirstOf3(a, b, c, n) <= r0.Keys {
        assert r1 == r0 && n1 == n0;
        assert r2 == r1 && n2 == n1;
      }
    }

    /** One call of the `try` block, when the error has not been raised before it. */
    method EnsureRolIf(name: string, run: bool)
      requires Valid()
      modifies this`roles, this`nextRolId
      ensures Valid()
      ensures forall x :: x in roles <==> x in old(roles) || (run && x == name)
      ensures Extends(old(roles), roles)
      ensures !run || name in old(roles) ==> roles == old(roles) && nextRolId == old(nextRolId)
    {
      if run {
        EnsureRol(name);
      }
    }
  }
}
