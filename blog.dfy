/**
 * The blog tables (`Categoria`, `SubCategoria`, `Tipo`, `Articulo`) and the
 * `Layout` singleton, with what their `save`, `clean` and signal receivers do:
 * name and title de-duplication, slug allocation for `SubCategoria` and
 * `Tipo`, removal of replaced or orphaned media files, the single-video rule
 * and the thumbnail trigger.
 *
 * A file field holds the stored file's name; the empty name is an empty field.
 * Deleting files is reported as the list of names handed to storage, in order.
 */
module Blog {
  import opened Common
  import opened Text
  import opened Uniqueness
  import opened Rows

  /** The media fields `SubCategoria` and `Articulo` share. */
  datatype Media = Media(imagen: string, usarMiniatura: bool, videoUrl: string, videoFile: string)

  datatype Categoria = Categoria(nombre: string, publico: bool)

  datatype SubCategoria = SubCategoria(nombre: string, categoria: nat, slug: string, media: Media, publico: bool)

  datatype Tipo = Tipo(nombre: string, slug: string, publico: bool)

  datatype Articulo = Articulo(titulo: string, media: Media, publico: bool)

  datatype Layout = Layout(titulo: string, logo: string)

  datatype CleanResult = CleanOk | TwoVideoSources

  /** The row key `django-solo` stores the singleton under. */
  const SingletonId: nat := 1

  function CategoriaNombre(c: Categoria): string { c.nombre }
  function SubNombre(s: SubCategoria): string { s.nombre }
  function SubSlug(s: SubCategoria): string { s.slug }
  function TipoNombre(t: Tipo): string { t.nombre }
  function TipoSlug(t: Tipo): string { t.slug }
  function ArticuloTitulo(a: Articulo): string { a.titulo }
  function SubMedia(s: SubCategoria): Media { s.media }
  function ArticuloMedia(a: Articulo): Media { a.media }

  /** `if self.pk: old = type(self).objects.filter(pk=self.pk).first()`, narrowed to the media fields. */
  function StoredMedia<T(==)>(rows: seq<Row<T>>, pk: Option<nat>, media: T -> Media): Option<Media> {
    if !HasPk(pk) then None
    else match Lookup(rows, pk.value)
      case Some(v) => Some(media(v))
      case None => None
  }

  /** `borrar_fieldfile`: only a field with a file name is deleted; storage errors are swallowed. */
  function BorrarFieldfile(name: string): (deleted: seq<string>)
    ensures |deleted| <= 1
    ensures deleted != [] <==> name != ""
    ensures forall f | f in deleted :: f == name
  {
    if name != "" then [name] else []
  }

  /**
   * What an update does to the previously stored file of one field: delete it
   * when the field was cleared, or when it now holds a file of another name.
   */
  function ReplacedFile(stored: string, current: string): (deleted: seq<string>)
    ensures deleted != [] <==> stored != "" && stored != current
    ensures deleted == [] || deleted == [stored]
  {
    if stored != "" && current == "" then BorrarFieldfile(stored)
    else if stored != "" && current != "" && stored != current then BorrarFieldfile(stored)
    else []
  }

  /**
   * The deletions of `SubCategoria.save` / `Articulo.save` on update: the old
   * image, then the old video file.  Nothing is deleted without a stored row.
   */
  function MediaDeletions(stored: Option<Media>, current: Media): (deleted: seq<string>)
    ensures stored.None? ==> deleted == []
    ensures stored.Some? ==> forall f :: f in deleted <==>
      (f == stored.value.imagen && f != "" && f != current.imagen) ||
      (f == stored.value.videoFile && f != "" && f != current.videoFile)
    ensures |deleted| <= 2
  {
    if stored.None? then []
    else ReplacedFile(stored.value.imagen, current.imagen) + ReplacedFile(stored.value.videoFile, current.videoFile)
  }

  /** `SubCategoria.clean` / `Articulo.clean`: a video URL and a video file together are refused. */
  function CleanVideo(m: Media): (r: CleanResult)
    ensures r == TwoVideoSources <==> m.videoUrl != "" && m.videoFile != ""
  {
    if m.videoUrl != "" && m.videoFile != "" then TwoVideoSources else CleanOk
  }

  /** The `post_save` receivers' test for generating a thumbnail from the video. */
  predicate NeedsThumbnail(m: Media) {
    m.usarMiniatura && m.videoFile != "" && m.imagen == ""
  }

  /** The `post_delete` receivers of `Articulo` and `SubCategoria`: image, then video file. */
  function FilesOnDelete(m: Media): (deleted: seq<string>)
    ensures forall f :: f in deleted <==> f != "" && (f == m.imagen || f == m.videoFile)
    ensures |deleted| <= 2
  {
    BorrarFieldfile(m.imagen) + BorrarFieldfile(m.videoFile)
  }

  /**
   * Once the generated thumbnail is stored the trigger is off, so the
   * receiver's own `save(update_fields=["imagen"])` does not trigger again;
   * and a stored image never triggers.
   */
  lemma ThumbnailSettles(m: Media, thumb: string)
    requires NeedsThumbnail(m) && thumb != ""
    ensures !NeedsThumbnail(m.(imagen := thumb))
    ensures CleanVideo(m.(imagen := thumb)) == CleanVideo(m)
  {
  }

  class BlogStore {
    const slugify: string -> string
    var categorias: seq<Row<Categoria>>
    var subcategorias: seq<Row<SubCategoria>>
    var tipos: seq<Row<Tipo>>
    var articulos: seq<Row<Articulo>>
    var layout: Option<Layout>
    var nextId: nat

    ghost predicate Valid()
      reads this
    {
      && IdsUnique(categorias) && IdsBelow(categorias, nextId)
      && IdsUnique(subcategorias) && IdsBelow(subcategorias, nextId) && KeysUnique(subcategorias, SubSlug)
      && IdsUnique(tipos) && IdsBelow(tipos, nextId) && KeysUnique(tipos, TipoSlug)
      && IdsUnique(articulos) && IdsBelow(articulos, nextId)
    }

    constructor (slugify: string -> string)
      ensures Valid() && this.slugify == slugify
      ensures categorias == [] && subcategorias == [] && tipos == [] && articulos == [] && layout == None
    {
      this.slugify := slugify;
      categorias, subcategorias, tipos, articulos := [], [], [], [];
      layout := None;
      nextId := 1;
    }

    /** `Categoria.save`: the name becomes the first of `N`, `N (1)`, ... no other category holds. */
    method SaveCategoria(pk: Option<nat>, c: Categoria) returns (inst: Categoria, id: nat)
      requires Valid()
      modifies this
      ensures Valid()
      ensures IsFirstFree(TitleStyle, c.nombre, OtherKeys(old(categorias), pk, CategoriaNombre), inst.nombre)
      ensures inst == c.(nombre := inst.nombre)
      ensures id == SaveKey(pk, old(nextId))
      ensures categorias == Upsert(old(categorias), id, inst)
      ensures subcategorias == old(subcategorias) && tipos == old(tipos)
      ensures articulos == old(articulos) && layout == old(layout)
    {
      var nombre := FirstFree(TitleStyle, c.nombre, OtherKeys(categorias, pk, CategoriaNombre));
      inst := c.(nombre := nombre);
      id := SaveKey(pk, nextId);
      UpsertKeepsIds(categorias, nextId, id, inst);
      categorias := Upsert(categorias, id, inst);
      var next := if id + 1 > nextId then id + 1 else nextId;
      IdsBelowGrow(subcategorias, nextId, next);
      IdsBelowGrow(tipos, nextId, next);
      IdsBelowGrow(articulos, nextId, next);
      nextId := next;
    }

    /**
     * `SubCategoria.save`: de-duplicate the name, allocate a slug when it is
     * empty (probing the whole table, this row included), delete replaced
     * media of the stored row, then write the row.  `thumbnail` is the
     * `post_save` receiver's decision.
     */
    method SaveSubCategoria(pk: Option<nat>, s: SubCategoria)
      returns (inst: SubCategoria, deleted: seq<string>, res: SaveResult, thumbnail: bool)
      requires Valid()
      modifies this
      ensures Valid()
      ensures IsFirstFree(TitleStyle, s.nombre, OtherKeys(old(subcategorias), pk, SubNombre), inst.nombre)
      ensures s.slug != "" ==> inst.slug == s.slug
      ensures s.slug == "" ==> IsFirstFree(SlugStyle, slugify(inst.nombre), AllKeys(old(subcategorias), SubSlug), inst.slug)
      ensures inst == s.(nombre := inst.nombre, slug := inst.slug)
      ensures deleted == MediaDeletions(StoredMedia(old(subcategorias), pk, SubMedia), inst.media)
      ensures res.IntegrityError? <==> inst.slug in OtherKeys(old(subcategorias), pk, SubSlug)
      ensures res.Saved? ==> res.id == SaveKey(pk, old(nextId)) && subcategorias == Upsert(old(subcategorias), res.id, inst)
      ensures res.IntegrityError? ==> subcategorias == old(subcategorias)
      ensures thumbnail <==> res.Saved? && NeedsThumbnail(inst.media)
      ensures categorias == old(categorias) && tipos == old(tipos)
      ensures articulos == old(articulos) && layout == old(layout)
    {
      inst := NameSubCategoria(pk, s);
      deleted := MediaDeletions(StoredMedia(subcategorias, pk, SubMedia), inst.media);
      var id := SaveKey(pk, nextId);
      assert OtherKeys(subcategorias, pk, SubSlug) == OtherKeys(subcategorias, Some(id), SubSlug);
      if inst.slug in OtherKeys(subcategorias, Some(id), SubSlug) {
        return inst, deleted, IntegrityError, false;
      }
      UpsertKeepsIndex(subcategorias, nextId, id, inst, SubSlug);
      subcategorias := Upsert(subcategorias, id, inst);
      var next := if id + 1 > nextId then id + 1 else nextId;
      IdsBelowGrow(categorias, nextId, next);
      IdsBelowGrow(tipos, nextId, next);
      IdsBelowGrow(articulos, nextId, next);
      nextId := next;
      res := Saved(id);
      thumbnail := NeedsThumbnail(inst.media);
    }

    /** The first half of `SubCategoria.save`: the name, then the slug when it is empty. */
    method NameSubCategoria(pk: Option<nat>, s: SubCategoria) returns (inst: SubCategoria)
      ensures IsFirstFree(TitleStyle, s.nombre, OtherKeys(subcategorias, pk, SubNombre), inst.nombre)
      ensures s.slug != "" ==> inst.slug == s.slug
      ensures s.slug == "" ==> IsFirstFree(SlugStyle, slugify(inst.nombre), AllKeys(subcategorias, SubSlug), inst.slug)
      ensures inst == s.(nombre := inst.nombre, slug := inst.slug)
    {
      var nombre := FirstFree(TitleStyle, s.nombre, OtherKeys(subcategorias, pk, SubNombre));
      inst := s.(nombre := nombre);
      if inst.slug == "" {
        var slug := FirstFree(SlugStyle, slugify(inst.nombre), AllKeys(subcategorias, SubSlug));
        inst := inst.(slug := slug);
      }
    }

    /** `Tipo.save`: the name and slug rules of `SubCategoria.save`, without media. */
    method SaveTipo(pk: Option<nat>, t: Tipo) returns (inst: Tipo, res: SaveResult)
      requires Valid()
      modifies this
      ensures Valid()
      ensures IsFirstFree(TitleStyle, t.nombre, OtherKeys(old(tipos), pk, TipoNombre), inst.nombre)
      ensures t.slug != "" ==> inst.slug == t.slug
      ensures t.slug == "" ==> IsFirstFree(SlugStyle, slugify(inst.nombre), AllKeys(old(tipos), TipoSlug), inst.slug)
      ensures inst == t.(nombre := inst.nombre, slug := inst.slug)
      ensures res.IntegrityError? <==> inst.slug in OtherKeys(old(tipos), pk, TipoSlug)
      ensures res.Saved? ==> res.id == SaveKey(pk, old(nextId)) && tipos == Upsert(old(tipos), res.id, inst)
      ensures res.IntegrityError? ==> tipos == old(tipos)
      ensures categorias == old(categorias) && subcategorias == old(subcategorias)
      ensures articulos == old(articulos) && layout == old(layout)
    {
      inst := NameTipo(pk, t);
      var id := SaveKey(pk, nextId);
      assert OtherKeys(tipos, pk, TipoSlug) == OtherKeys(tipos, Some(id), TipoSlug);
      if inst.slug in OtherKeys(tipos, Some(id), TipoSlug) {
        return inst, IntegrityError;
      }
      UpsertKeepsIndex(tipos, nextId, id, inst, TipoSlug);
      tipos := Upsert(tipos, id, inst);
      var next := if id + 1 > nextId then id + 1 else nextId;
      IdsBelowGrow(categorias, nextId, next);
      IdsBelowGrow(subcategorias, nextId, next);
      IdsBelowGrow(articulos, nextId, next);
      nextId := next;
      res := Saved(id);
    }

    /** The first half of `Tipo.save`: the name, then the slug when it is empty. */
    method NameTipo(pk: Option<nat>, t: Tipo) returns (inst: Tipo)
      ensures IsFirstFree(TitleStyle, t.nombre, OtherKeys(tipos, pk, TipoNombre), inst.nombre)
      ensures t.slug != "" ==> inst.slug == t.slug
      ensures t.slug == "" ==> IsFirstFree(SlugStyle, slugify(inst.nombre), AllKeys(tipos, TipoSlug), inst.slug)
      ensures inst == t.(nombre := inst.nombre, slug := inst.slug)
    {
      var nombre := FirstFree(TitleStyle, t.nombre, OtherKeys(tipos, pk, TipoNombre));
      inst := t.(nombre := nombre);
      if inst.slug == "" {
        var slug := FirstFree(SlugStyle, slugify(inst.nombre), AllKeys(tipos, TipoSlug));
        inst := inst.(slug := slug);
      }
    }

    /** `Articulo.save`: de-duplicate the title, delete replaced media, write the row. */
    method SaveArticulo(pk: Option<nat>, a: Articulo)
      returns (inst: Articulo, deleted: seq<string>, id: nat, thumbnail: bool)
      requires Valid()
      modifies this
      ensures Valid()
      ensures IsFirstFree(TitleStyle, a.titulo, OtherKeys(old(articulos), pk, ArticuloTitulo), inst.titulo)
      ensures inst == a.(titulo := inst.titulo)
      ensures deleted == MediaDeletions(StoredMedia(old(articulos), pk, ArticuloMedia), inst.media)
      ensures id == SaveKey(pk, old(nextId)) && articulos == Upsert(old(articulos), id, inst)
      ensures thumbnail <==> NeedsThumbnail(inst.media)
      ensures categorias == old(categorias) && subcategorias == old(subcategorias)
      ensures tipos == old(tipos) && layout == old(layout)
    {
      var titulo := FirstFree(TitleStyle, a.titulo, OtherKeys(articulos, pk, ArticuloTitulo));
      inst := a.(titulo := titulo);
      deleted := MediaDeletions(StoredMedia(articulos, pk, ArticuloMedia), inst.media);
      id := SaveKey(pk, nextId);
      UpsertKeepsIds(articulos, nextId, id, inst);
      articulos := Upsert(articulos, id, inst);
      var next := if id + 1 > nextId then id + 1 else nextId;
      IdsBelowGrow(categorias, nextId, next);
      IdsBelowGrow(subcategorias, nextId, next);
      IdsBelowGrow(tipos, nextId, next);
      nextId := next;
      thumbnail := NeedsThumbnail(inst.media);
    }

    /** `Layout.save`: a cleared or replaced logo of the stored singleton is deleted. */
    method SaveLayout(pk: Option<nat>, l: Layout) returns (deleted: seq<string>)
      requires Valid()
      modifies this`layout
      ensures Valid()
      ensures deleted == (if HasPk(pk) && pk.value == SingletonId && old(layout).Some?
                          then ReplacedFile(old(layout).value.logo, l.logo) else [])
      ensures layout == Some(l)
    {
      deleted := [];
      if HasPk(pk) {
        var stored := if pk.value == SingletonId then layout else None;
        if stored.Some? {
          deleted := ReplacedFile(stored.value.logo, l.logo);
        }
      }
      layout := Some(l);
    }

    /** Deleting an article: the row goes, and `post_delete` deletes the instance's image and video file. */
    method DeleteArticulo(id: nat, inst: Articulo) returns (deleted: seq<string>)
      requires Valid()
      modifies this`articulos
      ensures Valid()
      ensures forall x :: x in articulos <==> x in old(articulos) && x.id != id
      ensures deleted == FilesOnDelete(inst.media)
    {
      RemoveMembers(articulos, id);
      articulos := Remove(articulos, id);
      deleted := FilesOnDelete(inst.media);
    }

    /** Deleting a subcategory: as for an article. */
    method DeleteSubCategoria(id: nat, inst: SubCategoria) returns (deleted: seq<string>)
      requires Valid()
      modifies this`subcategorias
      ensures Valid()
      ensures forall x :: x in subcategorias <==> x in old(subcategorias) && x.id != id
      ensures deleted == FilesOnDelete(inst.media)
    {
      RemoveMembers(subcategorias, id);
      subcategorias := Remove(subcategorias, id);
      deleted := FilesOnDelete(inst.media);
    }

    /** Deleting the layout deletes its logo. */
    method DeleteLayout(inst: Layout) returns (deleted: seq<string>)
      requires Valid()
      modifies this`layout
      ensures Valid()
      ensures layout == None
      ensures deleted == BorrarFieldfile(inst.logo)
    {
      layout := None;
      deleted := BorrarFieldfile(inst.logo);
    }
  }

  /**
   * The slug probe does not skip the row being saved: clearing the slug of a
   * stored row whose slug is already `slugify(nombre)` moves it to another slug.
   */
  lemma BlankSlugResaveMovesOff<T>(rows: seq<Row<T>>, key: T -> string, r: Row<T>, base: string, slug: string)
    requires r in rows && key(r.val) == base
    requires IsFirstFree(SlugStyle, base, AllKeys(rows, key), slug)
    ensures slug != base
    ensures StartsWith(slug, base)
    ensures slug !in AllKeys(rows, key)
  {
    assert base in AllKeys(rows, key);
    FirstFreeExtendsBase(SlugStyle, base, AllKeys(rows, key), slug);
  }

  /** A row whose name no other row holds keeps its name on save. */
  lemma FreeNameKept<T>(rows: seq<Row<T>>, key: T -> string, pk: Option<nat>, name: string, r: string)
    requires name !in OtherKeys(rows, pk, key)
    requires IsFirstFree(TitleStyle, name, OtherKeys(rows, pk, key), r)
    ensures r == name
  {
    FirstFreeOfFreeBase(TitleStyle, name, OtherKeys(rows, pk, key), r);
  }

  /** A de-duplicated name is never held by another row of the table. */
  lemma DedupedNameIsFresh<T>(rows: seq<Row<T>>, key: T -> string, pk: Option<nat>, name: string, r: string)
    requires IsFirstFree(TitleStyle, name, OtherKeys(rows, pk, key), r)
    ensures forall x | x in rows && IsOther(x, pk) :: key(x.val) != r
    ensures StartsWith(r, name)
  {
    FirstFreeExtendsBase(TitleStyle, name, OtherKeys(rows, pk, key), r);
    forall x | x in rows && IsOther(x, pk) ensures key(x.val) != r {
      assert key(x.val) in OtherKeys(rows, pk, key);
    }
  }
}
