/**
 * The admin site's rules for roles, users and profiles: who may see or use
 * each model admin, which fields are read-only, which roles a form offers,
 * and what `save_model` / `save_formset` put back before writing.
 */
module Admin {
  import opened Common
  import opened Access
  import opened Accounts
  import opened Rows

  /** The user object an admin view is about (`obj`): its key, none before the first save, and its flags. */
  datatype UserObj = UserObj(pk: Option<nat>, isStaff: bool, isSuperuser: bool)

  /** A role as the choice list shows it. */
  datatype RolRow = RolRow(id: nat, nombre: string)

  /** An entry of `list_filter`: a boolean column, or `RolListFilter`. */
  datatype ListFilter = FieldFilter(field: string) | RolListFilter

  /** An inline of the user admin. */
  datatype InlineKind = PerfilInline | OtherInline(name: string)

  /** What `get_rol` shows when there is no role to show. */
  const NoRol: string := "—"

  /** Where a refused admin action goes. */
  const AdminIndex: string := "/admin/"

  // ---------------------------------------------------------------- RolAdmin

  /** `RolAdmin.has_module_permission`. */
  predicate RolModulePermission(u: Requester) {
    IsSuperuser(u)
  }

  /** `RolAdmin.get_model_perms`, over the permissions the default admin would report. */
  function RolModelPerms(u: Requester, perms: set<string>): set<string> {
    if IsSuperuser(u) then perms else {}
  }

  /** `changelist_view`, `change_view` and `delete_view` of `RolAdmin`: `next` is the stock view's response. */
  function RolAdminView<R>(u: Requester, next: R): Guarded<R> {
    if !IsSuperuser(u) then Redirect(Url(AdminIndex)) else Serve(next)
  }

  /** Only superusers see the role admin, get its permissions, or reach its views; everyone else is sent to the index. */
  lemma RolAdminSuperuserOnly<R>(u: Requester, perms: set<string>, next: R)
    ensures RolModulePermission(u) <==> IsSuperuser(u)
    ensures RolAdminView(u, next).Serve? <==> IsSuperuser(u)
    ensures RolAdminView(u, next).Serve? ==> RolAdminView(u, next).response == next
    ensures !IsSuperuser(u) ==> RolModelPerms(u, perms) == {} && RolAdminView(u, next) == Redirect(Url(AdminIndex))
    ensures IsSuperuser(u) ==> RolModelPerms(u, perms) == perms
  {
  }

  // ---------------------------------------------------- PerfilUsuarioInline

  predicate InlineViewPermission(u: Requester) {
    IsStaff(u)
  }

  predicate InlineChangePermission(u: Requester) {
    IsStaff(u)
  }

  predicate InlineAddPermission(u: Requester) {
    IsSuperuser(u)
  }

  predicate InlineDeletePermission(u: Requester) {
    IsSuperuser(u)
  }

  /** `PerfilUsuarioInline.get_readonly_fields` for the user being edited (`None` on the add form). */
  function InlineReadonlyFields(u: Requester, obj: Option<UserObj>): (r: seq<string>)
    ensures r == [] || r == ["rol"]
    ensures r == [] <==> IsSuperuser(u) ||
                         (IsStaff(u) && obj.Some? && obj.value.pk != Some(u.pk) && !obj.value.isStaff && !obj.value.isSuperuser)
  {
    if IsSuperuser(u) then []
    else if !IsStaff(u) then ["rol"]
    else if obj.None? then ["rol"]
    else if obj.value.pk == Some(u.pk) then ["rol"]
    else if obj.value.isStaff || obj.value.isSuperuser then ["rol"]
    else []
  }

  /** The roles other than "Staff", in order (`exclude(nombre__in=["Staff"])`). */
  function WithoutStaff(roles: seq<RolRow>): (r: seq<RolRow>)
    ensures |r| <= |roles|
    ensures forall x | x in r :: x in roles && x.nombre != StaffRole
    ensures forall x | x in roles && x.nombre != StaffRole :: x in r
  {
    if roles == [] then []
    else (if roles[0].nombre != StaffRole then [roles[0]] else []) + WithoutStaff(roles[1..])
  }

  /** `formfield_for_foreignkey` for `rol`: every role for a superuser, all but "Staff" for staff, none otherwise. */
  function RolChoices(u: Requester, roles: seq<RolRow>): (r: seq<RolRow>)
    ensures IsSuperuser(u) ==> r == roles
    ensures !IsSuperuser(u) && IsStaff(u) ==> r == WithoutStaff(roles)
    ensures !IsSuperuser(u) && !IsStaff(u) ==> r == []
    ensures forall x | x in r :: x in roles
  {
    if IsSuperuser(u) then roles
    else if IsStaff(u) then WithoutStaff(roles)
    else []
  }

  /** A non-superuser is never offered the "Staff" role. */
  lemma StaffNotOffered(u: Requester, roles: seq<RolRow>)
    requires !IsSuperuser(u)
    ensures forall x | x in RolChoices(u, roles) :: x.nombre != StaffRole
  {
  }

  // ------------------------------------------------------- CustomUserAdmin

  /** `get_list_display`. */
  function ListDisplay(u: Requester): (r: seq<string>)
    ensures |r| >= 4 && r[..4] == ["username", "email", "get_rol", "is_active"]
    ensures "is_staff" in r <==> IsSuperuser(u)
    ensures "is_superuser" in r <==> IsSuperuser(u) || IsStaff(u)
  {
    var base := ["username", "email", "get_rol", "is_active"];
    if IsSuperuser(u) then base + ["is_staff", "is_superuser"]
    else if IsStaff(u) then base + ["is_superuser"]
    else base
  }

  /** `get_list_filter`. */
  function ListFilters(u: Requester): (r: seq<ListFilter>)
    ensures FieldFilter("is_staff") in r <==> IsSuperuser(u)
    ensures FieldFilter("is_superuser") in r <==> IsSuperuser(u) || IsStaff(u)
    ensures r == [] <==> !IsSuperuser(u) && !IsStaff(u)
    ensures r != [] ==> r[0] == FieldFilter("is_active") && r[|r| - 1] == RolListFilter
  {
    if IsSuperuser(u) then [FieldFilter("is_active"), FieldFilter("is_staff"), FieldFilter("is_superuser"), RolListFilter]
    else if IsStaff(u) then [FieldFilter("is_active"), FieldFilter("is_superuser"), RolListFilter]
    else []
  }

  /** `RolListFilter.lookups`: one choice per role, its key and its name. */
  function RolLookups(store: AuthStore): (r: set<(nat, string)>)
    reads store
    ensures forall n | n in store.roles :: (store.roles[n], n) in r
    ensures forall p | p in r :: p.1 in store.roles && store.roles[p.1] == p.0
  {
    set n | n in store.roles :: (store.roles[n], n)
  }

  /** `RolListFilter.queryset` over the users `users`: with a value, those whose profile is on that role. */
  function RolFilterUsers(store: AuthStore, users: set<string>, value: Option<nat>): (r: set<string>)
    reads store
    ensures value.None? ==> r == users
    ensures value.Some? ==> forall x :: x in r <==> x in users && x in store.perfiles && store.perfiles[x] == value.value
  {
    if value.None? then users
    else set x | x in users && x in store.perfiles && store.perfiles[x] == value.value
  }

  /** `get_rol`: the name of the role on the user's profile, or a dash. */
  function GetRol(store: AuthStore, u: string): (r: string)
    reads store
    requires store.Valid()
    ensures u !in store.perfiles ==> r == NoRol
    ensures u in store.perfiles ==> r in store.roles && store.roles[r] == store.perfiles[u]
  {
    if u in store.perfiles then
      var id := store.perfiles[u];
      assert exists n :: n in store.roles && store.roles[n] == id;
      var n :| n in store.roles && store.roles[n] == id;
      n
    else NoRol
  }

  predicate UserModulePermission(u: Requester) {
    IsStaff(u)
  }

  predicate UserViewPermission(u: Requester) {
    IsStaff(u)
  }

  predicate UserAddPermission(u: Requester) {
    IsSuperuser(u)
  }

  predicate UserDeletePermission(u: Requester) {
    IsSuperuser(u)
  }

  /** `CustomUserAdmin.has_change_permission`, on the changelist (`None`) or one user. */
  predicate UserChangePermission(u: Requester, obj: Option<UserObj>) {
    if IsSuperuser(u) then true
    else if !IsStaff(u) then false
    else if obj.None? then true
    else if obj.value.pk == Some(u.pk) then true
    else !obj.value.isStaff && !obj.value.isSuperuser
  }

  /** The change permission as a table: superusers always, non-staff never, staff on the list, themselves and plain users. */
  lemma ChangePermissionTable(u: Requester, obj: Option<UserObj>)
    ensures IsSuperuser(u) ==> UserChangePermission(u, obj)
    ensures !IsSuperuser(u) && !IsStaff(u) ==> !UserChangePermission(u, obj)
    ensures !IsSuperuser(u) && IsStaff(u) ==>
      (UserChangePermission(u, obj) <==>
         obj.None? || obj.value.pk == Some(u.pk) || (!obj.value.isStaff && !obj.value.isSuperuser))
  {
  }

  /** Adding and deleting users and profiles are for superusers only. */
  lemma AddDeleteSuperuserOnly(u: Requester)
    ensures UserAddPermission(u) <==> IsSuperuser(u)
    ensures UserDeletePermission(u) <==> IsSuperuser(u)
    ensures InlineAddPermission(u) <==> IsSuperuser(u)
    ensures InlineDeletePermission(u) <==> IsSuperuser(u)
  {
  }

  /** Viewing the user admin and the profile inline, and opening the inline, follow `is_staff` alone. */
  lemma ViewStaffOnly(u: Requester)
    ensures UserModulePermission(u) <==> IsStaff(u)
    ensures UserViewPermission(u) <==> IsStaff(u)
    ensures InlineViewPermission(u) <==> IsStaff(u)
    ensures InlineChangePermission(u) <==> IsStaff(u)
  {
  }

  /** Wherever the inline lets a staff member edit `rol`, the user admin also lets them change that user. */
  lemma EditableRolNeedsChangePermission(u: Requester, obj: Option<UserObj>)
    requires "rol" !in InlineReadonlyFields(u, obj)
    ensures UserChangePermission(u, obj)
    ensures obj.Some? && !IsSuperuser(u) ==> obj.value.pk != Some(u.pk)
  {
  }

  /** `CustomUserAdmin.get_readonly_fields`. */
  function UserReadonlyFields(u: Requester): (r: seq<string>)
    ensures IsSuperuser(u) ==> r == []
    ensures !IsSuperuser(u) ==> "is_staff" in r && "is_superuser" in r
  {
    if IsSuperuser(u) then [] else ["is_staff", "is_superuser"]
  }

  /** The inlines `get_inline_instances` keeps: the profile inline only for staff, every other inline as it is. */
  function KeptInlines(u: Requester, inlines: seq<InlineKind>): (r: seq<InlineKind>)
    ensures |r| <= |inlines|
    ensures forall x | x in r :: x in inlines && (x == PerfilInline ==> IsStaff(u))
    ensures forall x | x in inlines && (x == PerfilInline ==> IsStaff(u)) :: x in r
    ensures IsStaff(u) ==> r == inlines
  {
    if inlines == [] then []
    else (if inlines[0] != PerfilInline || IsStaff(u) then [inlines[0]] else []) + KeptInlines(u, inlines[1..])
  }

  lemma {:induction false} KeptInlinesSnoc(u: Requester, inlines: seq<InlineKind>, x: InlineKind)
    ensures KeptInlines(u, inlines + [x]) == KeptInlines(u, inlines) + (if x != PerfilInline || IsStaff(u) then [x] else [])
  {
    if inlines == [] {
      assert inlines + [x] == [x];
    } else {
      assert (inlines + [x])[1..] == inlines[1..] + [x];
      KeptInlinesSnoc(u, inlines[1..], x);
    }
  }

  /** `get_inline_instances`: the loop over the stock inline instances. */
  method InlineInstances(u: Requester, stock: seq<InlineKind>) returns (inlines: seq<InlineKind>)
    ensures inlines == KeptInlines(u, stock)
  {
    inlines := [];
    var i := 0;
    while i < |stock|
      invariant 0 <= i <= |stock|
      invariant inlines == KeptInlines(u, stock[..i])
    {
      KeptInlinesSnoc(u, stock[..i], stock[i]);
      assert stock[..i + 1] == stock[..i] + [stock[i]];
      if stock[i] == PerfilInline {
        if IsStaff(u) {
          inlines := inlines + [stock[i]];
        }
      } else {
        inlines := inlines + [stock[i]];
      }
      i := i + 1;
    }
    assert stock[..i] == stock;
  }

  /**
   * `User.objects.filter(pk=obj.pk).first()`: the stored account, or nothing
   * for a user not yet stored.  Users are keyed by username, so the stored row
   * is the one under the username being saved.
   */
  function StoredAccount(users: map<string, Account>, username: string): (r: Option<Account>)
    ensures r.Some? <==> username in users
    ensures r.Some? ==> r.value == users[username]
  {
    if username in users then Some(users[username]) else None
  }

  /**
   * The account `save_model` writes: a non-superuser editor's form keeps the
   * stored flags, or clears both on a user not yet stored.
   */
  function GuardedAccount(u: Requester, acct: Account, original: Option<Account>): (r: Account)
    ensures r.isActive == acct.isActive && r.password == acct.password && r.email == acct.email
    ensures IsSuperuser(u) ==> r == acct
    ensures !IsSuperuser(u) ==> r.isStaff == (original.Some? && original.value.isStaff)
    ensures !IsSuperuser(u) ==> r.isSuperuser == (original.Some? && original.value.isSuperuser)
  {
    if IsSuperuser(u) then acct
    else if original.Some? then acct.(isStaff := original.value.isStaff, isSuperuser := original.value.isSuperuser)
    else acct.(isStaff := false, isSuperuser := false)
  }

  /**
   * `CustomUserAdmin.save_model` for the user `username` with the form's
   * account: the guarded account goes through the user save, receivers included.
   * When `ok` is false (a superuser account without a profile), the store is
   * as the receiver leaves it, before the admin view's transaction is rolled back.
   */
  method SaveModel(store: AuthStore, u: Requester, username: string, acct: Account) returns (ok: bool)
    requires store.Valid()
    modifies store`roles, store`nextRolId, store`users, store`perfiles
    ensures store.Valid() && username in store.users
    ensures !IsSuperuser(u) ==>
      store.users[username].isSuperuser == (username in old(store.users) && old(store.users)[username].isSuperuser)
    ensures !IsSuperuser(u) && !(username in old(store.users) && old(store.users)[username].isSuperuser) ==>
      store.users[username].isStaff == (username in old(store.users) && old(store.users)[username].isStaff)
    ensures IsSuperuser(u) ==> store.users[username].isSuperuser == acct.isSuperuser
    ensures forall x | x in old(store.users) && x != username :: x in store.users && store.users[x] == old(store.users)[x]
    // the whole new state: the guarded account as the user save stores it
    ensures var g := GuardedAccount(u, acct, StoredAccount(old(store.users), username));
      !store.signalsConnected || !g.isSuperuser ==>
        ok && store.roles == old(store.roles) && store.perfiles == old(store.perfiles) &&
        store.users == old(store.users)[username := g]
    ensures var g := GuardedAccount(u, acct, StoredAccount(old(store.users), username));
      !store.signalsConnected || !g.isSuperuser || StaffRole in old(store.roles) ==> store.nextRolId == old(store.nextRolId)
    ensures var g := GuardedAccount(u, acct, StoredAccount(old(store.users), username));
      store.signalsConnected && g.isSuperuser ==>
        store.roles == (if StaffRole in old(store.roles) then old(store.roles) else old(store.roles)[StaffRole := old(store.nextRolId)])
    ensures var g := GuardedAccount(u, acct, StoredAccount(old(store.users), username));
      store.signalsConnected && g.isSuperuser && username !in old(store.perfiles) ==>
        !ok && store.perfiles == old(store.perfiles) && store.users == old(store.users)[username := g]
    ensures var g := GuardedAccount(u, acct, StoredAccount(old(store.users), username));
      store.signalsConnected && g.isSuperuser && username in old(store.perfiles) ==>
        ok && store.perfiles == old(store.perfiles)[username := store.roles[StaffRole]] &&
        store.users == old(store.users)[username := g.(isStaff := true)]
  {
    var original := StoredAccount(store.users, username);
    ok := store.SaveUser(username, GuardedAccount(u, acct, original));
  }

  // ---------------------------------------------------------- save_formset

  /** A profile form's instance: its own key (none while unsaved), its user's key and the chosen role's key. */
  datatype PerfilInstance = PerfilInstance(pk: Option<nat>, userId: Option<nat>, rolId: Option<nat>)

  /** A stored user as `User.objects.filter(pk=...)` returns it. */
  datatype StoredUser = StoredUser(isStaff: bool, isSuperuser: bool)

  /** What the formset save reads back: each profile's stored role, the stored users, the role names. */
  datatype Db = Db(perfilRol: map<nat, nat>, users: map<nat, StoredUser>, rolName: map<nat, string>)

  /** The key names the "Staff" role (`if instance.rol_id:` first tests it for truth). */
  predicate NamesStaff(rolId: Option<nat>, db: Db) {
    HasPk(rolId) && rolId.value in db.rolName && db.rolName[rolId.value] == StaffRole
  }

  /** `PerfilUsuario.objects.filter(pk=...).values_list("rol_id").first()`. */
  function StoredRol(inst: PerfilInstance, db: Db): Option<nat>
    requires inst.pk.Some?
  {
    if inst.pk.value in db.perfilRol then Some(db.perfilRol[inst.pk.value]) else None
  }

  /** `target_user`: looked up only when the instance has a truthy user key. */
  function TargetUser(inst: PerfilInstance, db: Db): Option<StoredUser> {
    if HasPk(inst.userId) && inst.userId.value in db.users then Some(db.users[inst.userId.value]) else None
  }

  /** The target is the editor, a staff member or a superuser: the role goes back to the stored one. */
  predicate ProtectedTarget(u: Requester, inst: PerfilInstance, db: Db) {
    var t := TargetUser(inst, db);
    t.Some? && ((u.Authenticated? && inst.userId.value == u.pk) || t.value.isStaff || t.value.isSuperuser)
  }

  /** The role key a non-superuser editor's profile form keeps. */
  function RestoredRol(u: Requester, inst: PerfilInstance, db: Db): (r: Option<nat>)
    ensures !HasPk(inst.pk) ==> r.None?
    ensures HasPk(inst.pk) && ProtectedTarget(u, inst, db) ==> r == StoredRol(inst, db)
    ensures HasPk(inst.pk) && NamesStaff(inst.rolId, db) ==> r == StoredRol(inst, db)
    ensures HasPk(inst.pk) && r != StoredRol(inst, db) ==>
      r == inst.rolId && !ProtectedTarget(u, inst, db) && !NamesStaff(inst.rolId, db)
    ensures HasPk(inst.pk) && !ProtectedTarget(u, inst, db) && !NamesStaff(inst.rolId, db) ==> r == inst.rolId
  {
    if !HasPk(inst.pk) then None
    else if ProtectedTarget(u, inst, db) then StoredRol(inst, db)
    else if NamesStaff(inst.rolId, db) then StoredRol(inst, db)
    else inst.rolId
  }

  /** One form after the loop: superusers' forms, other formsets and forms without an instance pass through. */
  function FormAfter(u: Requester, perfilFormset: bool, f: Option<PerfilInstance>, db: Db): (r: Option<PerfilInstance>)
    ensures !perfilFormset || IsSuperuser(u) || f.None? ==> r == f
    ensures r.Some? <==> f.Some?
    ensures r.Some? ==> r.value.pk == f.value.pk && r.value.userId == f.value.userId
  {
    if !perfilFormset || IsSuperuser(u) || f.None? then f
    else Some(f.value.(rolId := RestoredRol(u, f.value, db)))
  }

  /** A role the editor could not grant is never what a stored profile ends up with, unless it was stored already. */
  lemma NoStaffGrantedByNonSuperuser(u: Requester, f: Option<PerfilInstance>, db: Db)
    requires !IsSuperuser(u) && f.Some? && HasPk(f.value.pk)
    ensures var r := FormAfter(u, true, f, db);
      NamesStaff(r.value.rolId, db) ==> r.value.rolId == StoredRol(f.value, db)
  {
  }

  /** `CustomUserAdmin.save_formset`: the loop over `formset.forms` resetting `rol_id` in place. */
  method SaveFormset(u: Requester, perfilFormset: bool, forms: array<Option<PerfilInstance>>, db: Db)
    modifies forms
    ensures forall i | 0 <= i < forms.Length :: forms[i] == FormAfter(u, perfilFormset, old(forms[i]), db)
  {
    if !perfilFormset || IsSuperuser(u) {
      return;
    }
    var i := 0;
    while i < forms.Length
      invariant 0 <= i <= forms.Length
      invariant forall j | 0 <= j < i :: forms[j] == FormAfter(u, perfilFormset, old(forms[j]), db)
      invariant forall j | i <= j < forms.Length :: forms[j] == old(forms[j])
    {
      var f := forms[i];
      if f.Some? {
        var inst := f.value;
        if !HasPk(inst.pk) {
          forms[i] := Some(inst.(rolId := None));
        } else {
          var orig := StoredRol(inst, db);
          var target := TargetUser(inst, db);
          if target.Some? && u.Authenticated? && inst.userId.value == u.pk {
            forms[i] := Some(inst.(rolId := orig));
          } else if target.Some? && (target.value.isStaff || target.value.isSuperuser) {
            forms[i] := Some(inst.(rolId := orig));
          } else if HasPk(inst.rolId) {
            var nombre := if inst.rolId.value in db.rolName then Some(db.rolName[inst.rolId.value]) else None;
            if nombre == Some(StaffRole) {
              forms[i] := Some(inst.(rolId := orig));
            }
          }
        }
      }
      i := i + 1;
    }
  }
}
