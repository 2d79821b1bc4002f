# A Django CMS: page, blog and role rules in Dafny

This project models the core rules of a small Django content site: its
pages (`AppPagina`), its blog (`blog`), its accounts with roles and the staff
flag (`mainApp`), the admin's and the middlewares' access decisions, the
generic maintenance listing (`mantenimiento`), and two template filters.

Each Django table is a sequence of rows `Row(id, val)` in query order, or a
map keyed by username. A unique index is a predicate the store keeps as an
invariant, and a write that would break it returns `IntegrityError` instead.
Code that changes state step by step is written as imperative Dafny. The
page table, the blog store and the account store are classes, and a
`while` loop in the source is a `while` loop here, proved against a function
that specifies it. Pure decisions, such as permissions, field lists and
filters, are functions, and lemmas state what they promise.

The modules:

- `Rows` holds the table operations: `filter(pk=...).first()`, UPDATE-or-INSERT, and DELETE.
- `Uniqueness` holds the "first free candidate" loop of every de-duplicating save. It covers both name styles, `base (k)` and `base-k`.
- `Text` holds decimal printing and ASCII case mapping (`lower`, `capitalize`, `title`), plus `startswith` and its case-insensitive form.
- `Pages` models `Pagina.clean` and `Pagina.save`.
- `Blog` models the saves of `Categoria`, `SubCategoria`, `Tipo`, `Articulo` and `Layout`, the media-file clean-up, and the video rules.
- `Accounts` models the role catalog, the profiles, and the two `post_save` receivers, which call each other through saves. It also models `MainappConfig.ready`.
- `Seed` models the `seed` management command.
- `Access` models `group_required` and the two middlewares.
- `Admin` models `RolAdmin`, `RolListFilter`, `PerfilUsuarioInline` and `CustomUserAdmin`.
- `Maintenance` models `mantenimiento/services.py`.
- `TemplateTags` models `youtube_id` and `contiene_categoria`.

`slugify` is a parameter of the page table and of the blog store. Nothing
is assumed about it, so every property holds for any slug function. The
environment variable of the seed command, the fixtures `loaddata` accepts,
and the response a guarded view would return are parameters too.

Where the code and the repository's own tests disagree, the model follows
the code:

- `AppPagina/tests.py:183` expects a page displaced from the home slot to get exactly `slugify(titulo)`. The code (`AppPagina/models.py:42-43`) always appends `-{counter}`, and `Pages.PageTable.Save` states that.
- `AppPagina/tests.py:372-373` expect a duplicate explicit slug to be resolved. The code only allocates a slug when it is blank (`AppPagina/models.py:57`), so the write hits the unique index. The model returns `IntegrityError`.
- `mainApp/tests.py:158-168` expects a profile to be created with every user through `create_profile_on_user_create`, a receiver the signals module does not define. In the code, a superuser saved without a profile makes `assign_staff_role_to_superuser` fail (`mainApp/signals.py:45`). `Accounts.AuthStore.Assign` reports this as `ok == false`.

## Model

| member | source | states |
|---|---|---|
| Pages.ValidateFields | AppPagina/models.py:11 | `orden` is refused exactly when it is negative |
| Pages.PageTable.Save | AppPagina/models.py:32-74 | A regular page gets the first free title among the other rows, and a slug as well when its slug is blank: the first free one from `slugify(titulo) or "pagina"`, which is never empty. Every other field is kept. The write fails with an integrity error exactly when another row holds the slug. A home page gets slug "" and `orden` 0, and the other home flags are cleared. Every other blank-slug row gets `base-1` and `orden + 1`. The save succeeds exactly when no displaced slug is taken; when it fails, the table keeps the cleared home flags and no slug changes. The table invariant holds throughout: unique keys, unique slugs, and home rows blank. |
| Pages.PageTable.Clean | AppPagina/models.py:32-64 | the same, for `clean()` alone; a regular page changes no row, and when a home page's re-slugging fails the table is left with the other home flags cleared and no slug changed |
| Pages.PageTable.ReslugPass | AppPagina/models.py:40-46 | The `for` loop over the other blank-slug rows succeeds exactly when every displaced slug is free. On success the table equals the reference `Reslugged`; on failure it is unchanged. |
| Pages.PageTable.Persist | AppPagina/models.py:74 | the write updates the row with the instance's key or inserts one under the next key, and is refused exactly when another row holds the slug |
| Pages.ClearHomeKeepsInvariant | AppPagina/models.py:35 | clearing the other home flags keeps the table invariant and leaves no other row marked as home |
| Pages.HomeSaveSingleHome | AppPagina/models.py:34-46 | after a home save, the saved row is in the table and it is the only home row |
| Pages.HomeSaveOtherRows | AppPagina/models.py:35-46 | after a home save, every other row is still there, no longer home and, if its slug was blank, re-slugged to `base-1` with `orden + 1` |
| Pages.AtMostOneHome | AppPagina/models.py:34-35 | the table invariant allows at most one home row |
| Pages.ResaveUnchanged | AppPagina/models.py:50-64 | re-saving a stored regular row whose title and slug no other row holds writes back the same table |
| Pages.TitleDedupSequence | AppPagina/models.py:50-54 | the title `T` becomes `T (1)`, then `T (2)` |
| Pages.RegularSlugNonEmpty | AppPagina/models.py:57-64 | an allocated slug is non-empty and extends its base |
| Pages.NoBlankAfterReslug | AppPagina/models.py:39-46 | after one pass no other row has a blank slug, so the `while` loop stops |
| Uniqueness.FirstFree | AppPagina/models.py:50-64 | The probe loop returns the first candidate no other row holds: `base`, then `base (1)`, `base (2)`, ... or `base-1`, `base-2`, ... The result is never taken. |
| Uniqueness.FirstFreeDeterministic | AppPagina/models.py:52-54 | the first free candidate is unique, given the base and the taken set |
| Uniqueness.FirstFreeOfFreeBase | AppPagina/models.py:52-54 | a base nobody holds is kept as it is |
| Uniqueness.FirstFreeExtendsBase | AppPagina/models.py:61-64 | the result starts with the base, and differs from it when the base is taken |
| Uniqueness.CandidateInjective | blog/models.py:95-105 | no two probes of one loop are the same string, so the counter never revisits a name |
| Text.NatToStringInjective | AppPagina/models.py:43 | distinct counters print distinct suffixes |
| Rows.UpsertMembers | AppPagina/models.py:74 | `super().save()` leaves the written row plus every row with another key, unchanged, and keeps keys unique |
| Blog.BlogStore.SaveCategoria | blog/models.py:56-62 | the name becomes the first free one among the other categories; only the category table changes |
| Blog.BlogStore.SaveSubCategoria | blog/models.py:92-122 | The name is de-duplicated. A blank slug becomes the first free `slugify(nombre)`, `-1`, `-2`, ... across the whole table. The stored row's cleared or replaced image and video file are deleted. The write fails exactly when another row holds the slug. A thumbnail is generated exactly when a saved row asks for one. |
| Blog.BlogStore.NameSubCategoria | blog/models.py:93-105 | the name and slug half of `SubCategoria.save` |
| Blog.BlogStore.SaveTipo | blog/models.py:145-160 | the name and slug rules of `SubCategoria.save`, with no media, for the type table |
| Blog.BlogStore.NameTipo | blog/models.py:146-159 | the name and slug half of `Tipo.save` |
| Blog.BlogStore.SaveArticulo | blog/models.py:187-208 | the title is de-duplicated, replaced media are deleted, a thumbnail is triggered per `NeedsThumbnail`, and only the article table changes |
| Blog.BlogStore.SaveLayout | blog/models.py:26-37 | the stored singleton's logo is deleted when it is cleared or replaced |
| Blog.BlogStore.DeleteArticulo | blog/models.py:269-272 | the row goes, and the image and video file are deleted |
| Blog.BlogStore.DeleteSubCategoria | blog/models.py:274-277 | the row goes, and the image and video file are deleted |
| Blog.BlogStore.DeleteLayout | blog/models.py:279-281 | the layout goes and its logo is deleted |
| Blog.BorrarFieldfile | blog/models.py:257-267 | a file is deleted exactly when the field holds a name |
| Blog.ReplacedFile | blog/models.py:110-114 | the stored file is deleted exactly when it existed and the field was cleared or now holds another name |
| Blog.MediaDeletions | blog/models.py:106-120 | an update deletes exactly the stored image and video file that changed, and nothing without a stored row |
| Blog.CleanVideo | blog/models.py:124-128 | `clean` refuses exactly when both a video URL and a video file are set |
| Blog.FilesOnDelete | blog/models.py:269-277 | a delete removes exactly the non-empty image and video file |
| Blog.ThumbnailSettles | blog/models.py:240-251 | once the generated thumbnail is stored, the `post_save` receiver does not fire again |
| Blog.BlankSlugResaveMovesOff | blog/models.py:98-105 | the slug probe counts the row itself, so clearing a stored row's slug moves it off its own `slugify(nombre)` |
| Blog.DedupedNameIsFresh | blog/models.py:93-97 | a de-duplicated name is held by no other row and extends the requested one |
| Blog.FreeNameKept | blog/models.py:93-97 | a name no other row holds is kept |
| Accounts.PerfilStr | mainApp/models.py:31-32 | the profile shows as the username, `" - "`, then the role name |
| Accounts.SyncedFlag | mainApp/signals.py:10-28 | The staff flag is unchanged when no "Staff" role exists. Otherwise it equals "the profile is on Staff", except that a superuser is never demoted. |
| Accounts.SyncedFlagSettles | mainApp/signals.py:22-28 | the flag the receiver writes is already synced, so the save it fires changes nothing |
| Accounts.AuthStore.Assign | mainApp/signals.py:31-52 | A non-superuser is left alone. A superuser gets the "Staff" role, created if missing, on its profile, and gets `is_staff`. A superuser without a profile fails. The nested saves terminate. |
| Accounts.AuthStore.Sync | mainApp/signals.py:10-28 | a profile save sets the user's flag to `SyncedFlag` and changes nothing else |
| Accounts.AuthStore.SaveUser | mainApp/signals.py:31-52 | saving a user runs the superuser receiver once it is connected; the resulting users, profiles and roles are stated in full |
| Accounts.AuthStore.CreatePerfil | mainApp/models.py:19-29 | A profile is refused for an unknown user, a user who already has one, or an unknown role. Otherwise it is written and the flag is synced. |
| Accounts.AuthStore.SetPerfilRol | mainApp/models.py:25-29 | changing a profile's role syncs the flag; a missing profile or an unknown role is refused |
| Accounts.AuthStore.DeleteRol | mainApp/models.py:25-29 | deleting a role is refused while a profile names it (`PROTECT`), and fails when no role has that name |
| Accounts.AuthStore.CreateRol | mainApp/models.py:10 | role names are unique: a second role with the same name is refused |
| Accounts.AuthStore.DeleteUser | mainApp/models.py:20-24 | deleting a user deletes its profile too (`CASCADE`) |
| Accounts.AuthStore.GetOrCreateRol | mainApp/apps.py:13-15 | `get_or_create` returns the role's key, adding the role only when it is missing |
| Accounts.AuthStore.Ready | mainApp/apps.py:10-25 | The first `succeeded` default roles are made sure of, and existing roles keep their keys. Nothing changes when they are all present. The receivers are connected unless importing them fails. |
| Accounts.ReadyRoles | mainApp/apps.py:13-18 | after all three calls, exactly the default roles are ensured; after a failure on the first call, none are |
| Seed.SeedPassword | mainApp/management/commands/seed.py:10-43 | a non-empty `--password` wins, then the environment variable (even empty), then `"test1234"` |
| Seed.FixturesToLoad | mainApp/management/commands/seed.py:137-140 | a non-empty fixture list is loaded as given; an empty one means exactly the two default fixtures |
| Seed.Loaded | mainApp/management/commands/seed.py:141-146 | the fixtures reported loaded are exactly those `loaddata` accepts, in order |
| Seed.LoadFixtures | mainApp/management/commands/seed.py:141-146 | the loop loads fixtures per `Loaded` |
| Seed.Handle | mainApp/management/commands/seed.py:40-148 | On success, the default roles exist, both colaboradores are on "Usuario" and the owner is a staff superuser on "Staff". New users get the password, and existing ones get it only with `--force-password`. A new colaborador is active, neither staff nor superuser, with email `<name>@example.com`. An existing one keeps every field but its staff flag and password. A new owner is active, with email `dueno@example.com`. An existing owner keeps every field but its two flags and password. Only those three users change. On failure the transaction restores everything. A second run without `--force-password` changes nothing. |
| Seed.SeedStore | mainApp/management/commands/seed.py:47-133 | the same, for the body of the transaction: roles, colaboradores and owner, with every account field stated |
| Seed.SeedRoles | mainApp/management/commands/seed.py:47-50 | the three default roles exist and existing keys are kept |
| Seed.SeedColaboradores | mainApp/management/commands/seed.py:54-85 | every listed user ends up with a profile on "Usuario" and the promised password. A new one has the `get_or_create` defaults, and an existing one keeps every field but its staff flag and password. Only those users are touched. |
| Seed.ColaboradorAccount | mainApp/management/commands/seed.py:55-74 | a missing colaborador is created active, neither staff nor superuser, with email `<name>@example.com` and the password. An existing one gets the password only with `--force-password`, and its other fields except the staff flag are kept. Without it, nothing changes. |
| Seed.SeedColaborador | mainApp/management/commands/seed.py:55-85 | one colaborador round: the account, then the profile on "Usuario"; a new account keeps its defaults, the staff flag included, because "Usuario" is not "Staff" |
| Seed.SeedOwner | mainApp/management/commands/seed.py:88-133 | The owner ends up a staff superuser on "Staff". A new owner is active, with email `dueno@example.com` and the password; an existing one keeps every field but its two flags and password. With the receivers connected, creating it fails. |
| Seed.OwnerAccount | mainApp/management/commands/seed.py:88-122 | A new owner is created as `Account(active, staff, superuser, password, dueno@example.com)`. An existing owner is promoted and saved only when a flag changed, and every field but the two flags and password is kept. The password is set when the owner is created or with `--force-password`. |
| Seed.SeedPerfil | mainApp/management/commands/seed.py:76-82 | the profile is created on the role, or moved onto it, and the account changes only in its staff flag |
| Seed.SeededReconciled | mainApp/management/commands/seed.py:46-133 | a finished run leaves the store in the state the next run reconciles to |
| Access.GroupRequired | mainApp/decorators.py:7-26 | Anonymous users are sent to the login page with `?next=`. Members of the group and superusers get the view's own response. Everyone else is sent to the home page. |
| Access.GroupRequiredMonotone | mainApp/decorators.py:19-20 | more groups, or the superuser flag, never take access away |
| Access.AdminGate | mainApp/middleware.py:4-17 | paths under `/admin/` reach the site exactly for superusers; every other path is served untouched |
| Access.RangeHeaders | mainApp/middleware.py:19-29 | media paths get `Accept-Ranges: bytes`, and all other headers are kept |
| Access.RangeHeadersIdempotent | mainApp/middleware.py:25-28 | applying the middleware twice is applying it once |
| Access.RangeRequest | mainApp/middleware.py:24-29 | the same response object comes back, with its headers per `RangeHeaders` |
| Admin.RolAdminSuperuserOnly | mainApp/admin.py:28-62 | only superusers see the role admin, get its permissions, or reach its views; everyone else is redirected to `/admin/` |
| Admin.RolLookups | mainApp/admin.py:68-72 | one filter choice per role: its key and its name |
| Admin.RolFilterUsers | mainApp/admin.py:74-77 | with a value, the filter keeps exactly the users whose profile is on that role; without one, every user |
| Admin.InlineReadonlyFields | mainApp/admin.py:107-137 | `rol` is editable exactly for a superuser, or for staff editing another user who is neither staff nor superuser |
| Admin.RolChoices | mainApp/admin.py:139-154 | superusers are offered every role, staff every role but "Staff", and others none |
| Admin.StaffNotOffered | mainApp/admin.py:149-151 | a non-superuser is never offered "Staff" |
| Admin.ListDisplay | mainApp/admin.py:199-206 | the four base columns come first; `is_staff` is shown exactly to superusers, and `is_superuser` to superusers and staff |
| Admin.ListFilters | mainApp/admin.py:208-224 | `is_staff` filters only for superusers, and `is_superuser` for superusers and staff; others get no filters |
| Admin.GetRol | mainApp/admin.py:227-236 | the column shows the name of the role on the user's profile, or a dash |
| Admin.ChangePermissionTable | mainApp/admin.py:259-281 | superusers may always change users, non-staff never, and staff on the list, on themselves and on plain users |
| Admin.AddDeleteSuperuserOnly | mainApp/admin.py:100-105 | adding and deleting users and profiles are for superusers only |
| Admin.ViewStaffOnly | mainApp/admin.py:92-98 | the user admin and the profile inline are visible exactly to staff |
| Admin.EditableRolNeedsChangePermission | mainApp/admin.py:128-137 | where the inline lets staff edit `rol`, the user admin also lets them change that user, and that user is not themselves |
| Admin.UserReadonlyFields | mainApp/admin.py:286-290 | non-superusers cannot edit `is_staff` or `is_superuser` |
| Admin.InlineInstances | mainApp/admin.py:295-304 | the profile inline is kept only for staff, and every other inline is kept, in order |
| Admin.GuardedAccount | mainApp/admin.py:311-319 | a non-superuser's form keeps the stored flags, or clears both for a new user; superusers' forms are written as given |
| Admin.SaveModel | mainApp/admin.py:311-320 | A non-superuser can neither grant nor revoke superuser, nor change a non-superuser's staff flag. The new state is stated in full: the guarded account is stored, with its active flag, password and email from the form. When it is a superuser and the receivers are connected, the "Staff" role is made sure of, the profile moves to it and the staff flag is forced on; with no profile the save fails. Other users are untouched. |
| Admin.RestoredRol | mainApp/admin.py:336-369 | An unsaved profile gets no role. The stored role is restored when the target is the editor, a staff member or a superuser, or when the form picks "Staff". Otherwise the chosen role is kept. |
| Admin.FormAfter | mainApp/admin.py:330-334 | superusers' forms, other formsets and forms without an instance pass through unchanged |
| Admin.NoStaffGrantedByNonSuperuser | mainApp/admin.py:363-369 | a form saved by a non-superuser ends on "Staff" only when the profile was already stored on it |
| Admin.SaveFormset | mainApp/admin.py:322-371 | every form's instance is rewritten per `FormAfter`, in place |
| Maintenance.GetModel | mantenimiento/services.py:19 | `apps.get_model` finds a model of the app, listed or auto-created, whose name matches ignoring case, and fails exactly when there is none |
| Maintenance.AutoCreatedFoundNotListed | mantenimiento/services.py:14-36 | an auto-created through model (such as `Categoria_paginas`, from the many-to-many field at blog/models.py:46) is found by name, but `list_models` does not list it |
| Maintenance.GetModelByName | mantenimiento/services.py:14-24 | the nested loops return the reference `ModelByName` |
| Maintenance.ModelByNameOrder | mantenimiento/services.py:14-24 | "blog" is searched before "AppPagina", and the lookup error is raised exactly when neither app has a model of that name ignoring case, listed or auto-created |
| Maintenance.ModelByNameIsCaseInsensitive | mantenimiento/services.py:17 | the capitalized and title-cased candidates find nothing the plain name does not |
| Maintenance.ListModels | mantenimiento/services.py:27-36 | the models `get_models()` lists for the configured apps, app by app, with an unknown app skipped and auto-created through models left out |
| Maintenance.AllModelsComplete | mantenimiento/services.py:30-33 | every model that `get_models()` lists for a configured app is in the listing |
| Maintenance.BuildAllowedFields | mantenimiento/services.py:39-53 | the loop returns `AllowedFields`: the searched text columns and the basic types, in declaration order |
| Maintenance.AllowedFields | mantenimiento/services.py:46-52 | a name is listed exactly when some field of that name is allowed |
| Maintenance.NormalizeOrder | mantenimiento/services.py:79-81 | the order is "asc" or "desc", and it is "desc" exactly when the input lower-cases to "desc" |
| Maintenance.BuildQuerysetAndMetadata | mantenimiento/services.py:56-107 | The search uses the model's searched columns and only a non-empty query. The sort column is shown exactly when it is allowed, and it is prefixed with `-` for "desc". Its verbose name comes from the first field of that name. The template fields are the allowed fields, in order. |
| Maintenance.SearchKeeps | mantenimiento/services.py:67-73 | the search keeps exactly the rows where some searched column starts with the query, ignoring case |
| Maintenance.TemplateFieldsDeclared | mantenimiento/services.py:101-105 | every template entry carries its field's declared verbose name |
| TemplateTags.YoutubeIdEmpty | blog/templatetags/filtro_yt.py:6-18 | the id is empty exactly when the URL is missing or empty, or neither pattern matches |
| TemplateTags.ShortFormWins | blog/templatetags/filtro_yt.py:12-14 | the leftmost `youtu.be/` match decides the id |
| TemplateTags.WatchFormNext | blog/templatetags/filtro_yt.py:15-17 | without a short form, the leftmost `watch?v=` match decides |
| TemplateTags.GroupShape | blog/templatetags/filtro_yt.py:12-17 | the id is non-empty, uses only `[a-zA-Z0-9_-]`, is maximal, and follows the marker |
| TemplateTags.ContieneCategoria | mainApp/templatetags/contiene_cat.py:5-7 | true exactly when some entry's third component equals the value |
| TemplateTags.ContienePermutation | mainApp/templatetags/contiene_cat.py:5-7 | reordering the list does not change the answer |
| TemplateTags.ContieneMonotone | mainApp/templatetags/contiene_cat.py:5-7 | adding entries never turns a yes into a no |

## Left out

- `slugify` is a parameter. Its Unicode handling is not part of this model.
- Case mapping covers ASCII letters only. `lower`, `capitalize`, `title` and `istartswith` leave other characters as they are.
- Thumbnail generation with OpenCV is out: opening a video, reading a frame and encoding a JPEG. The model states only when the `post_save` receiver calls it.
- File storage is out. A deletion is reported as the file name handed to storage, and storage errors are swallowed, as in the code.
- Views, templates, forms, `messages` and logging are out. A redirect is modelled by its target, and message texts are not modelled.
- Password hashing is out: the password is stored as given.
- `max_length` limits are out, and so are field types not used by a rule.
- The database is read through the stored rows. An in-memory instance that is stale after a receiver's nested save is not modelled separately.
- The exception that `assign_staff_role_to_superuser` swallows around `get_or_create` of the Staff role cannot happen on the in-memory store. That branch is not modelled.
- Foreign-key cascades of the blog tables are out: `Categoria` to `SubCategoria` and `Articulo`, and `SET_NULL` of an article's subcategory or a page's type. The blog store's tables share one key counter.
- `loaddata` is out. Only which fixtures it accepts is a parameter, and the rows it would insert are not modelled.
- `order_by` is lazy in Django. The model records the ordering key but not the ordering of rows, nor the `except` branch around it, which cannot raise before the query runs.
- The stock `ModelAdmin` views and the permission filtering in `super().get_inline_instances` are out; the stock inlines are a parameter.
- A profile saved with no role is out. The role column is NOT NULL, so only the failures that come from it are modelled, in `Assign`.
- HTTP header names are compared as written, not case-insensitively.
- `create_modelform_with_widgets` (mantenimiento/services.py:110-139) is out: it builds a form class from widgets.
- `RedirectNoStaff` (imported by mainApp/tests.py:10) and `rol_required` (imported by mantenimiento/views.py:12) are defined nowhere in the repository and are not modelled.
- Accounts.AuthStore.Ready: a database error is modelled as the number `succeeded` of `get_or_create` calls that went through before it. The failed import of the receivers is a boolean flag.
- Seed.Handle: the failure is stated for the two causes the code has. With the receivers connected and no owner stored, the owner's first save fails inside the receiver, and the whole transaction is undone. Other failures of a connected receiver are covered only by "on failure nothing changes".
- Maintenance.GetModel: Django keys its registry by the lower-cased model name, so two models of an app never differ only in case. The model searches the listed, then the auto-created names for the first match, and does not state that uniqueness.
- Admin.RolLookups: the choices are a set, so their order is not modelled. `Rol` has no `Meta.ordering`, so `Rol.objects.all()` returns them in an order the database chooses.
- Admin.SaveModel: users are keyed by username, so the stored account is looked up under the username being saved, not by primary key. A rename on the change form is not modelled: the model treats the new name as a user not yet stored and leaves the old entry in place.
- Access.GroupRequired: group membership is a set of names on the requester, with no query.
