/**
 * The page table (`Pagina`) and the rules of `Pagina.clean` / `Pagina.save`:
 * title de-duplication, slug allocation with a "pagina" fallback, and the
 * single home page whose promotion demotes and re-slugs the others.
 *
 * The database is the sequence `rows` of a `PageTable`; a row's position is
 * the order in which queries return it.  The unique index on `slug` is
 * checked by every write, which fails with an integrity error instead.
 */
module Pages {
  import opened Common
  import opened Text
  import opened Uniqueness
  import opened Rows

  datatype Page = Page(titulo: string, orden: int, slug: string, publico: bool, esInicio: bool)

  datatype FieldCheck = FieldsOk | OrdenBelowMinimum

  /**
   * Field validation (`full_clean`): `orden` carries `MinValueValidator(0)`.
   * `save()` never runs it, so a negative `orden` is stored as given.
   */
  function ValidateFields(p: Page): (r: FieldCheck)
    ensures r == OrdenBelowMinimum <==> p.orden < 0
  {
    if p.orden < 0 then OrdenBelowMinimum else FieldsOk
  }

  function TituloOf(p: Page): string { p.titulo }

  function SlugOf(p: Page): string { p.slug }

  function OtherTitles(rows: seq<Row<Page>>, pk: Option<nat>): set<string> {
    OtherKeys(rows, pk, TituloOf)
  }

  function OtherSlugs(rows: seq<Row<Page>>, pk: Option<nat>): set<string> {
    OtherKeys(rows, pk, SlugOf)
  }

  /** `slugify(titulo) or "pagina"`. */
  function BaseSlug(slugify: string -> string, titulo: string): (b: string)
    ensures b != ""
  {
    if slugify(titulo) != "" then slugify(titulo) else "pagina"
  }

  /** A home row has the empty slug and `orden` 0. */
  ghost predicate HomeRowsBlank(rows: seq<Row<Page>>) {
    forall r | r in rows && r.val.esInicio :: r.val.slug == "" && r.val.orden == 0
  }

  ghost predicate TableInvariant(rows: seq<Row<Page>>, nextId: nat) {
    IdsUnique(rows) && IdsBelow(rows, nextId) && KeysUnique(rows, SlugOf) && HomeRowsBlank(rows)
  }

  /** `Pagina.objects.exclude(pk=self.pk).update(es_inicio=False)`. */
  function ClearHome(rows: seq<Row<Page>>, pk: Option<nat>): (r: seq<Row<Page>>)
    ensures |r| == |rows|
    ensures forall i :: 0 <= i < |rows| ==>
      r[i] == if IsOther(rows[i], pk) then Row(rows[i].id, rows[i].val.(esInicio := false)) else rows[i]
  {
    seq(|rows|, i requires 0 <= i < |rows| =>
      if IsOther(rows[i], pk) then Row(rows[i].id, rows[i].val.(esInicio := false)) else rows[i])
  }

  /** A row the home-page loop re-slugs: another row whose slug is empty. */
  predicate IsBlankOther(r: Row<Page>, pk: Option<nat>) {
    IsOther(r, pk) && r.val.slug == ""
  }

  predicate HasBlankOther(rows: seq<Row<Page>>, pk: Option<nat>) {
    exists i :: 0 <= i < |rows| && IsBlankOther(rows[i], pk)
  }

  /** The slug a displaced page receives: `f"{slugify(titulo) or 'pagina'}-1"`. */
  function DisplacedSlug(slugify: string -> string, titulo: string): string {
    Candidate(SlugStyle, BaseSlug(slugify, titulo), 1)
  }

  /** What the re-slug loop does to one row. */
  function Displace(slugify: string -> string, r: Row<Page>, pk: Option<nat>): Row<Page> {
    if IsBlankOther(r, pk) then
      Row(r.id, r.val.(slug := DisplacedSlug(slugify, r.val.titulo), orden := r.val.orden + 1))
    else r
  }

  function Reslugged(slugify: string -> string, rows: seq<Row<Page>>, pk: Option<nat>): (r: seq<Row<Page>>)
    ensures |r| == |rows|
    ensures forall i :: 0 <= i < |rows| ==> r[i] == Displace(slugify, rows[i], pk)
  {
    seq(|rows|, i requires 0 <= i < |rows| => Displace(slugify, rows[i], pk))
  }

  /** The re-slug loop succeeds iff no displaced slug is already held by another row. */
  ghost predicate ReslugFits(slugify: string -> string, rows: seq<Row<Page>>, pk: Option<nat>) {
    forall r | r in rows && IsBlankOther(r, pk) :: DisplacedSlug(slugify, r.val.titulo) !in OtherSlugs(rows, Some(r.id))
  }

  class PageTable {
    const slugify: string -> string
    var rows: seq<Row<Page>>
    var nextId: nat

    ghost predicate Valid()
      reads this
    {
      TableInvariant(rows, nextId)
    }

    constructor (slugify: string -> string)
      ensures Valid() && this.slugify == slugify && rows == []
    {
      this.slugify := slugify;
      rows := [];
      nextId := 1;
    }

    /**
     * `Pagina.save`: run `clean()`, clear the other home flags once more when
     * this page is the home page, then write the row.  `inst` is the instance
     * as `clean()` left it.
     */
    method Save(pk: Option<nat>, p: Page) returns (inst: Page, res: SaveResult)
      requires Valid()
      modifies this
      ensures Valid()
      ensures res.Saved? ==> if pk.Some? then res.id == pk.value else res.id == old(nextId)
      // a regular page
      ensures !p.esInicio ==> IsFirstFree(TitleStyle, p.titulo, OtherTitles(old(rows), pk), inst.titulo)
      ensures !p.esInicio && p.slug != "" ==> inst.slug == p.slug
      ensures !p.esInicio && p.slug == "" ==>
        IsFirstFree(SlugStyle, BaseSlug(slugify, inst.titulo), OtherSlugs(old(rows), pk), inst.slug) && inst.slug != ""
      ensures !p.esInicio ==> inst == p.(titulo := inst.titulo, slug := inst.slug)
      ensures !p.esInicio ==> (res.IntegrityError? <==> inst.slug in OtherSlugs(old(rows), pk))
      ensures !p.esInicio && res.Saved? ==> rows == Upsert(old(rows), res.id, inst)
      ensures !p.esInicio && res.IntegrityError? ==> rows == old(rows)
      // the home page
      ensures p.esInicio ==> inst == p.(slug := "", orden := 0)
      ensures p.esInicio ==> (res.Saved? <==> ReslugFits(slugify, ClearHome(old(rows), pk), pk))
      ensures p.esInicio && res.Saved? ==>
        rows == Upsert(Reslugged(slugify, ClearHome(old(rows), pk), pk), res.id, inst)
      ensures p.esInicio && res.IntegrityError? ==> rows == ClearHome(old(rows), pk)
    {
      var ok;
      inst, ok := Clean(pk, p);
      if !ok {
        return inst, IntegrityError;
      }
      if inst.esInicio {
        ghost var before := rows;
        rows := ClearHome(rows, pk);
        ClearHomeOfReslugged(slugify, ClearHome(old(rows), pk), pk);
        assert rows == before;
      }
      res := Persist(pk, inst);
    }

    /**
     * `Pagina.clean`.  `ok` is false when a re-slugging UPDATE of the home
     * branch hit the unique index (the exception leaves earlier writes in
     * place).
     */
    method Clean(pk: Option<nat>, p: Page) returns (inst: Page, ok: bool)
      requires Valid()
      modifies this
      ensures Valid() && nextId == old(nextId)
      ensures !p.esInicio ==> ok && rows == old(rows)
      ensures !p.esInicio ==> IsFirstFree(TitleStyle, p.titulo, OtherTitles(old(rows), pk), inst.titulo)
      ensures !p.esInicio && p.slug != "" ==> inst.slug == p.slug
      ensures !p.esInicio && p.slug == "" ==>
        IsFirstFree(SlugStyle, BaseSlug(slugify, inst.titulo), OtherSlugs(old(rows), pk), inst.slug) && inst.slug != ""
      ensures !p.esInicio ==> inst == p.(titulo := inst.titulo, slug := inst.slug)
      ensures p.esInicio ==> inst == p.(slug := "", orden := 0)
      ensures p.esInicio ==> (ok <==> ReslugFits(slugify, ClearHome(old(rows), pk), pk))
      ensures p.esInicio && ok ==> rows == Reslugged(slugify, ClearHome(old(rows), pk), pk)
      ensures p.esInicio && !ok ==> rows == ClearHome(old(rows), pk)
    {
      inst := p;
      ok := true;
      if inst.esInicio {
        ClearHomeKeepsInvariant(rows, nextId, pk);
        rows := ClearHome(rows, pk);
        inst := inst.(slug := "", orden := 0);
        ghost var cleared: seq<Row<Page>> := rows;
        var counter := 1;
        while HasBlankOther(rows, pk)
          invariant Valid() && nextId == old(nextId)
          invariant forall r | r in cleared && IsOther(r, pk) :: !r.val.esInicio
          invariant (rows == cleared && counter == 1) ||
                    (rows == Reslugged(slugify, cleared, pk) && ReslugFits(slugify, cleared, pk))
          decreases if HasBlankOther(rows, pk) then 1 else 0
        {
          NoBlankAfterReslug(slugify, cleared, pk);
          ok := ReslugPass(pk, counter);
          if !ok {
            return;
          }
          counter := counter + 1;
        }
        NoBlankAfterReslug(slugify, cleared, pk);
        if rows == cleared {
          ResluggedWithoutBlank(slugify, cleared, pk);
        }
      } else {
        var titulo := FirstFree(TitleStyle, inst.titulo, OtherTitles(rows, pk));
        inst := inst.(titulo := titulo);
        if inst.slug == "" {
          var slug := FirstFree(SlugStyle, BaseSlug(slugify, inst.titulo), OtherSlugs(rows, pk));
          FirstFreeExtendsBase(SlugStyle, BaseSlug(slugify, inst.titulo), OtherSlugs(rows, pk), slug);
          inst := inst.(slug := slug);
        }
      }
    }

    /**
     * One pass of `for pagina in paginas:` over the other empty-slug rows:
     * each gets `f"{base}-{counter}"` and `orden + 1` through an UPDATE that
     * the unique index may refuse.  Rows are visited in table order.
     */
    method ReslugPass(pk: Option<nat>, counter0: nat) returns (ok: bool)
      requires Valid() && counter0 == 1
      requires forall r | r in rows && IsOther(r, pk) :: !r.val.esInicio
      modifies this`rows
      ensures Valid()
      ensures ok <==> ReslugFits(slugify, old(rows), pk)
      ensures ok ==> rows == Reslugged(slugify, old(rows), pk)
      ensures !ok ==> rows == old(rows)
    {
      ghost var start := rows;
      var counter := counter0;
      var i := 0;
      while i < |rows|
        invariant 0 <= i <= |rows| == |start|
        invariant Valid()
        invariant ResluggedBelow(slugify, start, rows, pk, i)
        invariant FitsBelow(slugify, start, pk, i)
        invariant counter == 1 || NoBlankFrom(start, pk, i)
        invariant counter == 1 ==> rows == start
      {
        if IsBlankOther(rows[i], pk) {
          BlankOtherIsUnique(rows, nextId, pk, i);
          assert rows[i] == start[i];
          assert counter == 1 && rows == start;
          var base := BaseSlug(slugify, rows[i].val.titulo);
          var slug := base + "-" + NatToString(counter);
          assert slug == DisplacedSlug(slugify, start[i].val.titulo);
          counter := counter + 1;
          var orden := rows[i].val.orden + 1;
          if slug in OtherSlugs(rows, Some(rows[i].id)) {
            NotFits(slugify, start, pk, i);
            return false;
          }
          var updated := Row(rows[i].id, rows[i].val.(slug := slug, orden := orden));
          assert updated == Displace(slugify, start[i], pk);
          UpdateKeepsInvariant(rows, nextId, i, updated);
          ResluggedStep(slugify, start, pk, i);
          rows := rows[i := updated];
        } else {
          ResluggedSkip(slugify, start, rows, pk, i);
        }
        i := i + 1;
      }
      ResluggedAll(slugify, start, rows, pk);
      return true;
    }

    /** `super().save()`: UPDATE or INSERT the row, refused when another row holds the slug. */
    method Persist(pk: Option<nat>, pg: Page) returns (res: SaveResult)
      requires Valid()
      requires pg.esInicio ==> pg.slug == "" && pg.orden == 0
      modifies this
      ensures Valid()
      ensures res.Saved? ==> if pk.Some? then res.id == pk.value else res.id == old(nextId)
      ensures res.IntegrityError? <==> pg.slug in OtherSlugs(old(rows), pk)
      ensures res.Saved? ==> rows == Upsert(old(rows), res.id, pg)
      ensures res.IntegrityError? ==> rows == old(rows) && nextId == old(nextId)
    {
      var id := if pk.Some? then pk.value else nextId;
      assert OtherSlugs(rows, pk) == OtherSlugs(rows, Some(id));
      if pg.slug in OtherSlugs(rows, Some(id)) {
        return IntegrityError;
      }
      UpsertMembers(rows, id, pg);
      rows := Upsert(rows, id, pg);
      nextId := if id + 1 > nextId then id + 1 else nextId;
      return Saved(id);
    }
  }

  // ---------------------------------------------------------------------------
  // Lemmas about the table functions
  // ---------------------------------------------------------------------------

  lemma ClearHomeKeepsInvariant(rows: seq<Row<Page>>, nextId: nat, pk: Option<nat>)
    requires TableInvariant(rows, nextId)
    ensures TableInvariant(ClearHome(rows, pk), nextId)
    ensures forall r | r in ClearHome(rows, pk) && IsOther(r, pk) :: !r.val.esInicio
  {
    var c := ClearHome(rows, pk);
    ClearHomeSlugsUnique(rows, pk);
    forall x | x in c
      ensures x.id < nextId && (x.val.esInicio ==> x.val.slug == "" && x.val.orden == 0)
      ensures IsOther(x, pk) ==> !x.val.esInicio
    {
      var i :| 0 <= i < |c| && c[i] == x;
      assert rows[i] in rows;
    }
  }

  lemma ClearHomeSlugsUnique(rows: seq<Row<Page>>, pk: Option<nat>)
    requires IdsUnique(rows) && KeysUnique(rows, SlugOf)
    ensures IdsUnique(ClearHome(rows, pk)) && KeysUnique(ClearHome(rows, pk), SlugOf)
  {
    var c := ClearHome(rows, pk);
    forall a, b | a in c && b in c && SlugOf(a.val) == SlugOf(b.val) ensures a.id == b.id {
      var i :| 0 <= i < |c| && c[i] == a;
      var j :| 0 <= j < |c| && c[j] == b;
      assert rows[i] in rows && rows[j] in rows;
    }
  }

  /** Replacing row i by a row with the same key and a slug no other row holds keeps the table valid. */
  lemma UpdateKeepsInvariant(rows: seq<Row<Page>>, nextId: nat, i: nat, updated: Row<Page>)
    requires TableInvariant(rows, nextId) && i < |rows|
    requires updated.id == rows[i].id && !updated.val.esInicio
    requires updated.val.slug !in OtherSlugs(rows, Some(updated.id))
    ensures TableInvariant(rows[i := updated], nextId)
  {
    var u := rows[i := updated];
    forall x | x in u && x != updated ensures x in rows && x.id != updated.id {
      var j :| 0 <= j < |u| && u[j] == x;
      assert j != i;
      assert rows[j] == x;
    }
  }

  /** The first `i` rows have been through the re-slug step, the rest are as they were. */
  ghost predicate ResluggedBelow(slugify: string -> string, start: seq<Row<Page>>, rows: seq<Row<Page>>, pk: Option<nat>, i: nat) {
    |rows| == |start| && i <= |start| &&
    (forall j :: 0 <= j < i ==> rows[j] == Displace(slugify, start[j], pk)) &&
    (forall j :: i <= j < |rows| ==> rows[j] == start[j])
  }

  /** The displaced slugs of the first `i` rows were free. */
  ghost predicate FitsBelow(slugify: string -> string, start: seq<Row<Page>>, pk: Option<nat>, i: nat) {
    forall j :: 0 <= j < i && j < |start| && IsBlankOther(start[j], pk) ==>
      DisplacedSlug(slugify, start[j].val.titulo) !in OtherSlugs(start, Some(start[j].id))
  }

  ghost predicate NoBlankFrom(start: seq<Row<Page>>, pk: Option<nat>, i: nat) {
    forall j :: i <= j < |start| ==> !IsBlankOther(start[j], pk)
  }

  /** The unique blank row at `i`, displaced while the rest of the table is as it was. */
  lemma ResluggedStep(slugify: string -> string, start: seq<Row<Page>>, pk: Option<nat>, i: nat)
    requires i < |start| && IsBlankOther(start[i], pk)
    requires ResluggedBelow(slugify, start, start, pk, i)
    requires forall j :: 0 <= j < |start| && IsBlankOther(start[j], pk) ==> j == i
    requires DisplacedSlug(slugify, start[i].val.titulo) !in OtherSlugs(start, Some(start[i].id))
    ensures ResluggedBelow(slugify, start, start[i := Displace(slugify, start[i], pk)], pk, i + 1)
    ensures FitsBelow(slugify, start, pk, i + 1)
    ensures NoBlankFrom(start, pk, i + 1)
  {
  }

  lemma ResluggedSkip(slugify: string -> string, start: seq<Row<Page>>, rows: seq<Row<Page>>, pk: Option<nat>, i: nat)
    requires i < |start| && ResluggedBelow(slugify, start, rows, pk, i) && !IsBlankOther(rows[i], pk)
    requires FitsBelow(slugify, start, pk, i)
    ensures ResluggedBelow(slugify, start, rows, pk, i + 1)
    ensures FitsBelow(slugify, start, pk, i + 1)
    ensures NoBlankFrom(start, pk, i) ==> NoBlankFrom(start, pk, i + 1)
  {
  }

  lemma NotFits(slugify: string -> string, start: seq<Row<Page>>, pk: Option<nat>, i: nat)
    requires i < |start| && IsBlankOther(start[i], pk)
    requires DisplacedSlug(slugify, start[i].val.titulo) in OtherSlugs(start, Some(start[i].id))
    ensures !ReslugFits(slugify, start, pk)
  {
    assert start[i] in start;
  }

  lemma ResluggedAll(slugify: string -> string, start: seq<Row<Page>>, rows: seq<Row<Page>>, pk: Option<nat>)
    requires ResluggedBelow(slugify, start, rows, pk, |start|) && FitsBelow(slugify, start, pk, |start|)
    ensures rows == Reslugged(slugify, start, pk)
    ensures ReslugFits(slugify, start, pk)
  {
    forall r | r in start && IsBlankOther(r, pk)
      ensures DisplacedSlug(slugify, r.val.titulo) !in OtherSlugs(start, Some(r.id))
    {
      var j :| 0 <= j < |start| && start[j] == r;
    }
  }

  /** Two other rows with the empty slug are one row: the loop meets at most one. */
  lemma BlankOtherIsUnique(rows: seq<Row<Page>>, nextId: nat, pk: Option<nat>, i: nat)
    requires TableInvariant(rows, nextId) && i < |rows| && IsBlankOther(rows[i], pk)
    ensures forall j :: 0 <= j < |rows| && IsBlankOther(rows[j], pk) ==> j == i
  {
    forall j | 0 <= j < |rows| && IsBlankOther(rows[j], pk) ensures j == i {
      assert rows[j] in rows && rows[i] in rows;
    }
  }

  lemma NoBlankAfterReslug(slugify: string -> string, rows: seq<Row<Page>>, pk: Option<nat>)
    ensures !HasBlankOther(Reslugged(slugify, rows, pk), pk)
  {
    forall i | 0 <= i < |rows| ensures !IsBlankOther(Reslugged(slugify, rows, pk)[i], pk) {
      CandidateExtendsBase(SlugStyle, BaseSlug(slugify, rows[i].val.titulo), 1);
    }
  }

  lemma ResluggedWithoutBlank(slugify: string -> string, rows: seq<Row<Page>>, pk: Option<nat>)
    requires !HasBlankOther(rows, pk)
    ensures Reslugged(slugify, rows, pk) == rows
    ensures ReslugFits(slugify, rows, pk)
  {
    forall r | r in rows ensures !IsBlankOther(r, pk) {
      var i :| 0 <= i < |rows| && rows[i] == r;
    }
  }

  lemma ClearHomeOfReslugged(slugify: string -> string, rows: seq<Row<Page>>, pk: Option<nat>)
    requires ClearHome(rows, pk) == rows
    ensures ClearHome(Reslugged(slugify, rows, pk), pk) == Reslugged(slugify, rows, pk)
  {
    var rs := Reslugged(slugify, rows, pk);
    forall i | 0 <= i < |rs| ensures ClearHome(rs, pk)[i] == rs[i] {
      assert ClearHome(rows, pk)[i] == rows[i];
    }
  }

  // ---------------------------------------------------------------------------
  // What a save leaves in the table
  // ---------------------------------------------------------------------------

  lemma ResluggedIds(slugify: string -> string, rows: seq<Row<Page>>, pk: Option<nat>)
    requires IdsUnique(rows)
    ensures IdsUnique(Reslugged(slugify, ClearHome(rows, pk), pk))
  {
  }

  /** After a successful home save the saved page is the one and only home row. */
  lemma HomeSaveSingleHome(slugify: string -> string, rows: seq<Row<Page>>, nextId: nat, pk: Option<nat>, inst: Page)
    requires TableInvariant(rows, nextId) && inst.esInicio
    ensures Row(SaveKey(pk, nextId), inst) in Upsert(Reslugged(slugify, ClearHome(rows, pk), pk), SaveKey(pk, nextId), inst)
    ensures forall x | x in Upsert(Reslugged(slugify, ClearHome(rows, pk), pk), SaveKey(pk, nextId), inst) ::
      x.val.esInicio <==> x == Row(SaveKey(pk, nextId), inst)
  {
    var id := SaveKey(pk, nextId);
    var r := Reslugged(slugify, ClearHome(rows, pk), pk);
    ResluggedIds(slugify, rows, pk);
    UpsertMembers(r, id, inst);
    ResluggedOthersNotHome(slugify, rows, nextId, pk);
  }

  /** After clearing and re-slugging, no row but the saved one is a home row. */
  lemma ResluggedOthersNotHome(slugify: string -> string, rows: seq<Row<Page>>, nextId: nat, pk: Option<nat>)
    requires TableInvariant(rows, nextId)
    ensures forall x | x in Reslugged(slugify, ClearHome(rows, pk), pk) && x.id != SaveKey(pk, nextId) :: !x.val.esInicio
  {
    var id := SaveKey(pk, nextId);
    var r := Reslugged(slugify, ClearHome(rows, pk), pk);
    forall x | x in r && x.id != id ensures !x.val.esInicio {
      var i :| 0 <= i < |r| && r[i] == x;
      assert rows[i].id == x.id;
      assert IsOther(rows[i], pk) by {
        assert rows[i] in rows;
      }
    }
  }

  /** What a home save does to another page, in one row. */
  function Demoted(slugify: string -> string, r: Row<Page>): Row<Page> {
    if r.val.slug == "" then
      Row(r.id, r.val.(slug := DisplacedSlug(slugify, r.val.titulo), orden := r.val.orden + 1, esInicio := false))
    else Row(r.id, r.val.(esInicio := false))
  }

  /**
   * Every other page loses its home flag; the one whose slug was empty is
   * re-slugged `<base>-1` and moved one place down, the rest keep slug and order.
   */
  lemma HomeSaveOtherRows(slugify: string -> string, rows: seq<Row<Page>>, nextId: nat, pk: Option<nat>, inst: Page)
    requires TableInvariant(rows, nextId) && inst.esInicio
    ensures forall r | r in rows && IsOther(r, pk) ::
      Demoted(slugify, r) in Upsert(Reslugged(slugify, ClearHome(rows, pk), pk), SaveKey(pk, nextId), inst)
  {
    var id := SaveKey(pk, nextId);
    var rs := Reslugged(slugify, ClearHome(rows, pk), pk);
    ResluggedIds(slugify, rows, pk);
    forall r | r in rows && IsOther(r, pk)
      ensures Demoted(slugify, r) in Upsert(rs, id, inst)
    {
      var i :| 0 <= i < |rows| && rows[i] == r;
      DemotedRow(slugify, rows, pk, i);
      assert r.id != id;
      UpsertKeepsOther(rs, id, inst, Demoted(slugify, r));
    }
  }

  lemma DemotedRow(slugify: string -> string, rows: seq<Row<Page>>, pk: Option<nat>, i: nat)
    requires i < |rows| && IsOther(rows[i], pk)
    ensures Demoted(slugify, rows[i]) in Reslugged(slugify, ClearHome(rows, pk), pk)
  {
    var c := ClearHome(rows, pk);
    assert c[i] == Row(rows[i].id, rows[i].val.(esInicio := false));
    assert Reslugged(slugify, c, pk)[i] == Demoted(slugify, rows[i]);
  }

  /**
   * Re-saving a stored regular page whose title no other page holds changes
   * nothing: the title is kept, the slug is kept, and the write is accepted
   * and puts back the same row.
   */
  lemma ResaveUnchanged(rows: seq<Row<Page>>, nextId: nat, r: Row<Page>, titulo: string)
    requires TableInvariant(rows, nextId) && r in rows
    requires !r.val.esInicio && r.val.slug != ""
    requires r.val.titulo !in OtherTitles(rows, Some(r.id))
    requires IsFirstFree(TitleStyle, r.val.titulo, OtherTitles(rows, Some(r.id)), titulo)
    ensures titulo == r.val.titulo
    ensures r.val.slug !in OtherSlugs(rows, Some(r.id))
    ensures Upsert(rows, r.id, r.val.(titulo := titulo)) == rows
  {
    FirstFreeOfFreeBase(TitleStyle, r.val.titulo, OtherTitles(rows, Some(r.id)), titulo);
    UpsertOfStoredRow(rows, r);
  }

  /** A regular save never stores the empty slug, so it cannot take the home page's slug. */
  lemma RegularSlugNonEmpty(slugify: string -> string, p: Page, titulo: string, taken: set<string>, slug: string)
    requires p.slug == "" && IsFirstFree(SlugStyle, BaseSlug(slugify, titulo), taken, slug)
    ensures slug != ""
    ensures StartsWith(slug, BaseSlug(slugify, titulo))
  {
    FirstFreeExtendsBase(SlugStyle, BaseSlug(slugify, titulo), taken, slug);
  }

  /** In a valid table at most one page is the home page. */
  lemma AtMostOneHome(rows: seq<Row<Page>>, nextId: nat, a: Row<Page>, b: Row<Page>)
    requires TableInvariant(rows, nextId)
    requires a in rows && b in rows && a.val.esInicio && b.val.esInicio
    ensures a == b
  {
    var i :| 0 <= i < |rows| && rows[i] == a;
    var j :| 0 <= j < |rows| && rows[j] == b;
  }

  /** A second page titled like the first becomes `"<titulo> (1)"`, a third `"<titulo> (2)"`. */
  lemma TitleDedupSequence(t: string, r1: string, r2: string)
    requires IsFirstFree(TitleStyle, t, {t}, r1)
    requires IsFirstFree(TitleStyle, t, {t, t + " (1)"}, r2)
    ensures r1 == t + " (1)" && r2 == t + " (2)"
  {
    assert NatToString(1) == "1" && NatToString(2) == "2";
    CandidateExtendsBase(TitleStyle, t, 1);
    assert IsFirstFree(TitleStyle, t, {t}, t + " (1)") by {
      assert Candidate(TitleStyle, t, 1) == t + " (1)";
    }
    FirstFreeDeterministic(TitleStyle, t, {t}, r1, t + " (1)");
    CandidateExtendsBase(TitleStyle, t, 2);
    assert IsFirstFree(TitleStyle, t, {t, t + " (1)"}, t + " (2)") by {
      assert Candidate(TitleStyle, t, 1) == t + " (1)";
      assert Candidate(TitleStyle, t, 2) == t + " (2)";
      assert t + " (2)" != t + " (1)" by {
        assert (t + " (2)")[|t| + 2] == '2';
      }
      forall j: nat | j < 2 ensures Candidate(TitleStyle, t, j) in {t, t + " (1)"} { }
    }
    FirstFreeDeterministic(TitleStyle, t, {t, t + " (1)"}, r2, t + " (2)");
  }
}
