/**
 * The `seed` management command: make sure of the default roles, of two
 * ordinary users on the "Usuario" role and of the owner "Dueño" as a staff
 * superuser on the "Staff" role, then optionally load fixtures.  The command
 * runs in one transaction, so an exception anywhere restores the store.
 */
module Seed {
  import opened Common
  import opened Accounts

  /** The fallback of `DJANGO_SEED_DEFAULT_PASSWORD`. */
  const FallbackPassword: string := "test1234"

  const Colaboradores: seq<string> := ["colaborador1", "colaborador2"]

  const Owner: string := "Dueño"

  const OwnerEmail: string := "dueno@example.com"

  const DefaultFixtures: seq<string> := ["blog/fixtures/blog_data.json", "AppPagina/fixtures/AppPagina_data.json"]

  /** `options.get('password') or DEFAULT_PASSWORD`, where the default is the environment variable (even empty) or the fallback. */
  function SeedPassword(option: Option<string>, env: Option<string>): (pwd: string)
    ensures option.Some? && option.value != "" ==> pwd == option.value
    ensures (option.None? || option.value == "") && env.Some? ==> pwd == env.value
    ensures (option.None? || option.value == "") && env.None? ==> pwd == FallbackPassword
  {
    if option.Some? && option.value != "" then option.value
    else if env.Some? then env.value
    else FallbackPassword
  }

  /** `options.get("fixture_list") or [...]`: an empty list means the defaults. */
  function FixturesToLoad(fixtureList: seq<string>): (r: seq<string>)
    ensures |r| > 0
    ensures fixtureList != [] ==> r == fixtureList
    ensures fixtureList == [] ==> r == DefaultFixtures
  {
    if fixtureList != [] then fixtureList else DefaultFixtures
  }

  /** The fixtures that load, in order; a failing one is reported and skipped. */
  function Loaded(fixtures: seq<string>, loads: string -> bool): (r: seq<string>)
    ensures |r| <= |fixtures|
    ensures forall f :: f in r <==> f in fixtures && loads(f)
  {
    if fixtures == [] then []
    else (if loads(fixtures[0]) then [fixtures[0]] else []) + Loaded(fixtures[1..], loads)
  }

  lemma {:induction false} LoadedSnoc(fixtures: seq<string>, f: string, loads: string -> bool)
    ensures Loaded(fixtures + [f], loads) == Loaded(fixtures, loads) + (if loads(f) then [f] else [])
  {
    if fixtures == [] {
      assert fixtures + [f] == [f];
    } else {
      assert (fixtures + [f])[1..] == fixtures[1..] + [f];
      LoadedSnoc(fixtures[1..], f, loads);
    }
  }

  /** `m1` differs from `m0` at most at the keys in `s`, and keeps every other entry. */
  ghost predicate Touches<V>(m0: map<string, V>, m1: map<string, V>, s: seq<string>) {
    && (forall x | x in m1 :: x in m0 || x in s)
    && (forall x | x in m0 && x !in s :: x in m1 && m1[x] == m0[x])
  }

  lemma TouchesTrans<V>(m0: map<string, V>, m1: map<string, V>, m2: map<string, V>, s: seq<string>, t: seq<string>)
    requires Touches(m0, m1, s) && Touches(m1, m2, t)
    ensures Touches(m0, m2, s + t)
    ensures s == t ==> Touches(m0, m2, s)
  {
  }

  /** User `u` is on role `rolId` with the password the command promises. */
  ghost predicate UserSeeded(users: map<string, Account>, perfiles: map<string, nat>, u: string, rolId: nat,
                             pwd: string, force: bool, users0: map<string, Account>) {
    && u in users && u in perfiles && perfiles[u] == rolId
    && ((u !in users0 || force) ==> users[u].password == pwd)
    && (u in users0 && !force ==> users[u].password == users0[u].password)
  }

  /**
   * A colaborador the command created has the `get_or_create` defaults (active,
   * neither staff nor superuser, `<name>@example.com`) and the password; one that
   * existed keeps every field but `is_staff` and the password.
   */
  ghost predicate ColaboradorFields(users: map<string, Account>, c: string, pwd: string, users0: map<string, Account>) {
    && c in users
    && (c !in users0 ==> users[c] == Account(true, false, false, pwd, c + "@example.com"))
    && (c in users0 ==> users[c].(isStaff := users0[c].isStaff, password := users0[c].password) == users0[c])
  }

  /**
   * The owner, when the command created it, is an active staff superuser with
   * `dueno@example.com` and the password; when it existed, it keeps every
   * field but the two flags and the password.
   */
  ghost predicate OwnerFields(users: map<string, Account>, pwd: string, users0: map<string, Account>) {
    && Owner in users
    && (Owner !in users0 ==> users[Owner] == Account(true, true, true, pwd, OwnerEmail))
    && (Owner in users0 ==>
         users[Owner].(isStaff := users0[Owner].isStaff, isSuperuser := users0[Owner].isSuperuser,
                       password := users0[Owner].password) == users0[Owner])
  }

  /** Every colaborador of `names` is seeded on role `rolId`, with the fields the command gives it. */
  ghost predicate AllSeeded(users: map<string, Account>, perfiles: map<string, nat>, names: seq<string>, rolId: nat,
                            pwd: string, force: bool, users0: map<string, Account>) {
    forall c | c in names :: UserSeeded(users, perfiles, c, rolId, pwd, force, users0) && ColaboradorFields(users, c, pwd, users0)
  }

  /** A later step that touches none of `names` keeps them seeded. */
  lemma AllSeededKept(users1: map<string, Account>, perfiles1: map<string, nat>, users2: map<string, Account>,
                      perfiles2: map<string, nat>, names: seq<string>, rolId: nat, pwd: string, force: bool,
                      users0: map<string, Account>, s: seq<string>)
    requires AllSeeded(users1, perfiles1, names, rolId, pwd, force, users0)
    requires Touches(users1, users2, s) && Touches(perfiles1, perfiles2, s)
    requires forall c | c in names :: c !in s
    ensures AllSeeded(users2, perfiles2, names, rolId, pwd, force, users0)
  {
    forall c | c in names
      ensures UserSeeded(users2, perfiles2, c, rolId, pwd, force, users0) && ColaboradorFields(users2, c, pwd, users0)
    {
      assert UserSeeded(users1, perfiles1, c, rolId, pwd, force, users0) && ColaboradorFields(users1, c, pwd, users0);
    }
  }

  /** One more seeded user, `c`, that the earlier ones did not see touched. */
  lemma AllSeededStep(users1: map<string, Account>, perfiles1: map<string, nat>, users2: map<string, Account>,
                      perfiles2: map<string, nat>, done: seq<string>, c: string, rolId: nat, pwd: string, force: bool,
                      users0: map<string, Account>)
    requires AllSeeded(users1, perfiles1, done, rolId, pwd, force, users0) && c !in done
    requires Touches(users1, users2, [c]) && Touches(perfiles1, perfiles2, [c])
    requires UserSeeded(users2, perfiles2, c, rolId, pwd, force, users0) && ColaboradorFields(users2, c, pwd, users0)
    ensures AllSeeded(users2, perfiles2, done + [c], rolId, pwd, force, users0)
  {
    AllSeededKept(users1, perfiles1, users2, perfiles2, done, rolId, pwd, force, users0, [c]);
  }

  /** The store once the command has finished. */
  ghost predicate Seeded(store: AuthStore, pwd: string, force: bool, users0: map<string, Account>)
    reads store
  {
    && (forall r | r in DefaultRoles :: r in store.roles)
    && AllSeeded(store.users, store.perfiles, Colaboradores, store.roles["Usuario"], pwd, force, users0)
    && UserSeeded(store.users, store.perfiles, Owner, store.roles[StaffRole], pwd, force, users0)
    && store.users[Owner].isSuperuser && store.users[Owner].isStaff
    && OwnerFields(store.users, pwd, users0)
  }

  /** The roles, accounts and profiles the command reconciles are already in place. */
  ghost predicate Reconciled(roles: map<string, nat>, users: map<string, Account>, perfiles: map<string, nat>) {
    && (forall r | r in DefaultRoles :: r in roles)
    && (forall c | c in Colaboradores :: c in users && c in perfiles && perfiles[c] == roles["Usuario"])
    && Owner in users && users[Owner].isSuperuser && users[Owner].isStaff
    && Owner in perfiles && perfiles[Owner] == roles[StaffRole]
  }

  /** A finished run leaves everything in place, so a second run without `--force-password` finds nothing to change. */
  lemma SeededReconciled(store: AuthStore, pwd: string, force: bool, users0: map<string, Account>)
    requires Seeded(store, pwd, force, users0)
    ensures Reconciled(store.roles, store.users, store.perfiles)
  {
  }

  /**
   * `Command.handle`.  `envPassword` is the environment variable, `loads`
   * says which fixtures `loaddata` accepts; `loaded` lists those loaded.
   */
  method Handle(store: AuthStore, password: Option<string>, envPassword: Option<string>, force: bool,
                loadFixtures: bool, fixtureList: seq<string>, loads: string -> bool)
    returns (ok: bool, loaded: seq<string>)
    requires store.Valid()
    modifies store`roles, store`nextRolId, store`users, store`perfiles
    ensures store.Valid()
    ensures ok ==> Seeded(store, SeedPassword(password, envPassword), force, old(store.users))
    ensures ok ==> loaded == (if loadFixtures then Loaded(FixturesToLoad(fixtureList), loads) else [])
    ensures ok ==> Touches(old(store.users), store.users, Colaboradores + [Owner])
    ensures ok ==> Touches(old(store.perfiles), store.perfiles, Colaboradores + [Owner])
    ensures !ok ==> loaded == [] && store.roles == old(store.roles) && store.nextRolId == old(store.nextRolId)
    ensures !ok ==> store.users == old(store.users) && store.perfiles == old(store.perfiles)
    ensures !store.signalsConnected ==> ok
    ensures store.signalsConnected && Owner !in old(store.users) ==> !ok
    ensures !force && Reconciled(old(store.roles), old(store.users), old(store.perfiles)) ==>
      ok && store.roles == old(store.roles) && store.nextRolId == old(store.nextRolId) &&
      store.users == old(store.users) && store.perfiles == old(store.perfiles)
  {
    var roles0, next0, users0, perfiles0 := store.roles, store.nextRolId, store.users, store.perfiles;
    assert StoreInvariant(roles0, next0, users0, perfiles0);
    loaded := [];
    ok := SeedStore(store, SeedPassword(password, envPassword), force);
    if !ok {
      store.roles, store.nextRolId, store.users, store.perfiles := roles0, next0, users0, perfiles0;
      return;
    }
    if loadFixtures {
      loaded := LoadFixtures(FixturesToLoad(fixtureList), loads);
    }
  }

  /** The body of the `atomic` block before the fixtures: roles, the two colaboradores, the owner. */
  method SeedStore(store: AuthStore, pwd: string, force: bool) returns (ok: bool)
    requires store.Valid()
    modifies store`roles, store`nextRolId, store`users, store`perfiles
    ensures store.Valid()
    ensures ok ==> Seeded(store, pwd, force, old(store.users))
    ensures ok ==> Touches(old(store.users), store.users, Colaboradores + [Owner])
    ensures ok ==> Touches(old(store.perfiles), store.perfiles, Colaboradores + [Owner])
    ensures !store.signalsConnected ==> ok
    ensures store.signalsConnected && Owner !in old(store.users) ==> !ok
    ensures !force && Reconciled(old(store.roles), old(store.users), old(store.perfiles)) ==>
      ok && store.roles == old(store.roles) && store.nextRolId == old(store.nextRolId) &&
      store.users == old(store.users) && store.perfiles == old(store.perfiles)
  {
    ghost var users0, perfiles0 := store.users, store.perfiles;
    SeedRoles(store);
    var usuarioId, staffId := store.roles["Usuario"], store.roles[StaffRole];

    ok := SeedColaboradores(store, Colaboradores, usuarioId, pwd, force, users0);
    if !ok {
      return;
    }
    ghost var users1, perfiles1 := store.users, store.perfiles;
    ok := SeedOwner(store, staffId, pwd, force);
    if !ok {
      return;
    }
    assert Owner !in Colaboradores;
    AllSeededKept(users1, perfiles1, store.users, store.perfiles, Colaboradores, usuarioId, pwd, force, users0, [Owner]);
    TouchesTrans(users0, users1, store.users, Colaboradores, [Owner]);
    TouchesTrans(perfiles0, perfiles1, store.perfiles, Colaboradores, [Owner]);
  }

  /** The `for fx in fixtures` loop: each `loaddata` that raises is reported and skipped. */
  method LoadFixtures(fixtures: seq<string>, loads: string -> bool) returns (loaded: seq<string>)
    ensures loaded == Loaded(fixtures, loads)
  {
    loaded := [];
    var n := 0;
    while n < |fixtures|
      invariant 0 <= n <= |fixtures|
      invariant loaded == Loaded(fixtures[..n], loads)
    {
      LoadedSnoc(fixtures[..n], fixtures[n], loads);
      assert fixtures[..n + 1] == fixtures[..n] + [fixtures[n]];
      if loads(fixtures[n]) {
        loaded := loaded + [fixtures[n]];
      }
      n := n + 1;
    }
    assert fixtures[..n] == fixtures;
  }

  /** The `for username in [...]` loop, over distinct user names. */
  method SeedColaboradores(store: AuthStore, names: seq<string>, usuarioId: nat, pwd: string, force: bool,
                           ghost users0: map<string, Account>)
    returns (ok: bool)
    requires store.Valid() && users0 == store.users
    requires "Usuario" in store.roles && usuarioId == store.roles["Usuario"] && StaffRole in store.roles
    requires forall i, j :: 0 <= i < j < |names| ==> names[i] != names[j]
    modifies store`roles, store`nextRolId, store`users, store`perfiles
    ensures store.Valid() && store.roles == old(store.roles)
    ensures ok ==> AllSeeded(store.users, store.perfiles, names, usuarioId, pwd, force, users0)
    ensures ok ==> Touches(old(store.users), store.users, names)
    ensures ok ==> Touches(old(store.perfiles), store.perfiles, names)
    ensures !store.signalsConnected ==> ok
    ensures !force && AllOnRole(old(store.users), old(store.perfiles), names, usuarioId) ==>
      ok && store.nextRolId == old(store.nextRolId) && store.users == old(store.users) && store.perfiles == old(store.perfiles)
  {
    var k := 0;
    ok := true;
    while k < |names|
      invariant 0 <= k <= |names|
      invariant store.Valid() && ok && store.roles == old(store.roles)
      invariant AllSeeded(store.users, store.perfiles, names[..k], usuarioId, pwd, force, users0)
      invariant Touches(users0, store.users, names[..k])
      invariant Touches(old(store.perfiles), store.perfiles, names[..k])
      invariant !force && AllOnRole(old(store.users), old(store.perfiles), names, usuarioId) ==>
        store.nextRolId == old(store.nextRolId) && store.users == old(store.users) && store.perfiles == old(store.perfiles)
    {
      var c := names[k];
      ghost var users1, perfiles1 := store.users, store.perfiles;
      assert c !in names[..k];
      ok := SeedColaborador(store, c, usuarioId, pwd, force, users0);
      if !ok {
        return;
      }
      AllSeededStep(users1, perfiles1, store.users, store.perfiles, names[..k], c, usuarioId, pwd, force, users0);
      TouchesTrans(users0, users1, store.users, names[..k], [c]);
      TouchesTrans(old(store.perfiles), perfiles1, store.perfiles, names[..k], [c]);
      assert names[..k + 1] == names[..k] + [c];
      k := k + 1;
    }
    assert names[..k] == names;
  }

  /** Every user of `names` exists with a profile on role `rolId`. */
  ghost predicate AllOnRole(users: map<string, Account>, perfiles: map<string, nat>, names: seq<string>, rolId: nat) {
    forall c | c in names :: c in users && c in perfiles && perfiles[c] == rolId
  }

  /** The owner exists as a staff superuser with a profile on role `staffId`. */
  ghost predicate OwnerInPlace(users: map<string, Account>, perfiles: map<string, nat>, staffId: nat) {
    Owner in users && users[Owner].isSuperuser && users[Owner].isStaff && Owner in perfiles && perfiles[Owner] == staffId
  }

  /** One colaborador round: the account, then the profile on "Usuario". */
  method SeedColaborador(store: AuthStore, c: string, usuarioId: nat, pwd: string, force: bool, ghost users0: map<string, Account>)
    returns (ok: bool)
    requires store.Valid() && "Usuario" in store.roles && usuarioId == store.roles["Usuario"] && StaffRole in store.roles
    requires c in users0 <==> c in store.users
    requires c in users0 ==> store.users[c] == users0[c]
    modifies store`roles, store`nextRolId, store`users, store`perfiles
    ensures store.Valid() && store.roles == old(store.roles)
    ensures ok ==> UserSeeded(store.users, store.perfiles, c, usuarioId, pwd, force, users0)
    ensures ok ==> ColaboradorFields(store.users, c, pwd, users0)
    ensures ok ==> Touches(old(store.users), store.users, [c]) && Touches(old(store.perfiles), store.perfiles, [c])
    ensures !store.signalsConnected ==> ok
    ensures !force && c in old(store.users) && c in old(store.perfiles) && old(store.perfiles)[c] == usuarioId ==>
      ok && store.nextRolId == old(store.nextRolId) && store.users == old(store.users) && store.perfiles == old(store.perfiles)
  {
    ok := ColaboradorAccount(store, c, pwd, force);
    if !ok {
      return;
    }
    ghost var users2, perfiles2 := store.users, store.perfiles;
    assert usuarioId in store.roles.Values;
    assert usuarioId != store.roles[StaffRole];
    SeedPerfil(store, c, usuarioId);
    TouchesTrans(old(store.users), users2, store.users, [c], [c]);
    TouchesTrans(old(store.perfiles), perfiles2, store.perfiles, [c], [c]);
  }

  /** The owner round: the account, then the profile on "Staff". */
  method SeedOwner(store: AuthStore, staffId: nat, pwd: string, force: bool) returns (ok: bool)
    requires store.Valid() && StaffRole in store.roles && staffId == store.roles[StaffRole]
    modifies store`roles, store`nextRolId, store`users, store`perfiles
    ensures store.Valid() && store.roles == old(store.roles)
    ensures ok ==> UserSeeded(store.users, store.perfiles, Owner, staffId, pwd, force, old(store.users))
    ensures ok ==> store.users[Owner].isSuperuser && store.users[Owner].isStaff
    ensures ok ==> OwnerFields(store.users, pwd, old(store.users))
    ensures ok ==> Touches(old(store.users), store.users, [Owner]) && Touches(old(store.perfiles), store.perfiles, [Owner])
    ensures !store.signalsConnected ==> ok
    ensures store.signalsConnected && Owner !in old(store.users) ==> !ok
    ensures !force && OwnerInPlace(old(store.users), old(store.perfiles), staffId) ==>
      ok && store.nextRolId == old(store.nextRolId) && store.users == old(store.users) && store.perfiles == old(store.perfiles)
  {
    ok := OwnerAccount(store, pwd, force);
    if !ok {
      return;
    }
    ghost var users2, perfiles2 := store.users, store.perfiles;
    assert staffId in store.roles.Values;
    SeedPerfil(store, Owner, staffId);
    TouchesTrans(old(store.users), users2, store.users, [Owner], [Owner]);
    TouchesTrans(old(store.perfiles), perfiles2, store.perfiles, [Owner], [Owner]);
  }

  /** `for rname in [...]: Rol.objects.get_or_create(nombre=rname)`. */
  method SeedRoles(store: AuthStore)
    requires store.Valid()
    modifies store`roles, store`nextRolId
    ensures store.Valid()
    ensures forall r | r in DefaultRoles :: r in store.roles
    ensures "Usuario" in store.roles && StaffRole in store.roles
    ensures Extends(old(store.roles), store.roles)
    ensures (forall r | r in DefaultRoles :: r in old(store.roles)) ==>
      store.roles == old(store.roles) && store.nextRolId == old(store.nextRolId)
  {
    var i := 0;
    while i < |DefaultRoles|
      invariant 0 <= i <= |DefaultRoles|
      invariant store.Valid()
      invariant forall j :: 0 <= j < i ==> DefaultRoles[j] in store.roles
      invariant Extends(old(store.roles), store.roles)
      invariant (forall r | r in DefaultRoles :: r in old(store.roles)) ==>
        store.roles == old(store.roles) && store.nextRolId == old(store.nextRolId)
    {
      ghost var before := store.roles;
      var _ := store.GetOrCreateRol(DefaultRoles[i]);
      ExtendsTransitive(old(store.roles), before, store.roles);
      i := i + 1;
    }
    assert DefaultRoles[1] == "Usuario" && DefaultRoles[2] == StaffRole;
  }

  /** The user half of a colaborador round: `get_or_create` with the defaults, then the password when created or forced. */
  method ColaboradorAccount(store: AuthStore, c: string, pwd: string, force: bool) returns (ok: bool)
    requires store.Valid() && StaffRole in store.roles
    modifies store`roles, store`nextRolId, store`users, store`perfiles
    ensures store.Valid() && store.roles == old(store.roles) && c in store.users
    ensures Touches(old(store.users), store.users, [c]) && Touches(old(store.perfiles), store.perfiles, [c])
    ensures ok && (c !in old(store.users) || force) ==> store.users[c].password == pwd
    ensures c !in old(store.users) ==> ok && store.users[c] == Account(true, false, false, pwd, c + "@example.com")
    ensures c in old(store.users) ==>
      store.users[c].(isStaff := old(store.users)[c].isStaff, password := old(store.users)[c].password) == old(store.users)[c]
    ensures c in old(store.users) && !force ==>
      ok && store.users == old(store.users) && store.perfiles == old(store.perfiles) && store.nextRolId == old(store.nextRolId)
    ensures !store.signalsConnected ==> ok
  {
    ok := true;
    if c !in store.users {
      ok := store.SaveUser(c, Account(true, false, false, "", c + "@example.com"));
      ok := store.SaveUser(c, store.users[c].(password := pwd));
    } else if force {
      ok := store.SaveUser(c, store.users[c].(password := pwd));
    }
  }

  /** The user half of the owner round: create "Dueño" as a staff superuser, or promote it and save when a flag changed. */
  method OwnerAccount(store: AuthStore, pwd: string, force: bool) returns (ok: bool)
    requires store.Valid() && StaffRole in store.roles
    modifies store`roles, store`nextRolId, store`users, store`perfiles
    ensures store.Valid() && store.roles == old(store.roles) && Owner in store.users
    ensures Touches(old(store.users), store.users, [Owner]) && Touches(old(store.perfiles), store.perfiles, [Owner])
    ensures ok ==> store.users[Owner].isSuperuser && store.users[Owner].isStaff
    ensures ok && (Owner !in old(store.users) || force) ==> store.users[Owner].password == pwd
    ensures ok && Owner in old(store.users) && !force ==> store.users[Owner].password == old(store.users)[Owner].password
    ensures ok && Owner !in old(store.users) ==> store.users[Owner] == Account(true, true, true, pwd, OwnerEmail)
    ensures Owner in old(store.users) ==>
      store.users[Owner].(isStaff := old(store.users)[Owner].isStaff, isSuperuser := old(store.users)[Owner].isSuperuser,
                          password := old(store.users)[Owner].password) == old(store.users)[Owner]
    ensures !store.signalsConnected ==> ok
    ensures store.signalsConnected && Owner !in old(store.users) ==> !ok
    ensures !force && Owner in old(store.users) && old(store.users)[Owner].isSuperuser && old(store.users)[Owner].isStaff ==>
      ok && store.users == old(store.users) && store.perfiles == old(store.perfiles) && store.nextRolId == old(store.nextRolId)
  {
    if Owner !in store.users {
      ok := store.SaveUser(Owner, Account(true, true, true, "", OwnerEmail));
      if !ok {
        return;
      }
      ok := store.SaveUser(Owner, store.users[Owner].(password := pwd));
    } else {
      var acct := store.users[Owner];
      var changed := !acct.isStaff || !acct.isSuperuser;
      ok := true;
      if changed {
        ok := store.SaveUser(Owner, acct.(isStaff := true, isSuperuser := true));
        if !ok {
          return;
        }
      }
      if force {
        ok := store.SaveUser(Owner, store.users[Owner].(password := pwd));
      }
    }
  }

  /** `PerfilUsuario.objects.get_or_create(user=u, defaults={"rol": ...})`, then moving the profile to that role if it was on another. */
  method SeedPerfil(store: AuthStore, u: string, rolId: nat)
    requires store.Valid() && u in store.users && rolId in store.roles.Values
    modifies store`roles, store`nextRolId, store`users, store`perfiles
    ensures store.Valid() && store.roles == old(store.roles)
    ensures u in store.users && u in store.perfiles && store.perfiles[u] == rolId
    ensures Touches(old(store.users), store.users, [u]) && Touches(old(store.perfiles), store.perfiles, [u])
    ensures store.users[u] == old(store.users[u]).(isStaff := store.users[u].isStaff)
    ensures old(store.users[u]).isSuperuser && old(store.users[u]).isStaff ==> store.users[u].isStaff
    ensures !old(store.users[u]).isSuperuser && !old(store.users[u]).isStaff && !(StaffRole in store.roles && rolId == store.roles[StaffRole]) ==>
      store.users[u] == old(store.users[u])
    ensures u in old(store.perfiles) && old(store.perfiles)[u] == rolId ==>
      store.users == old(store.users) && store.perfiles == old(store.perfiles) && store.nextRolId == old(store.nextRolId)
  {
    if u !in store.perfiles {
      var _ := store.CreatePerfil(u, rolId);
    } else if store.perfiles[u] != rolId {
      var _ := store.SetPerfilRol(u, rolId);
    }
  }
}
