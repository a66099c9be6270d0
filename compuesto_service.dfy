/**
 * The compound service: the business rules in front of the compound
 * repository. Lookups turn absence into `NotFound`; writes check existence
 * and a non-blank name first and change nothing when they refuse; deleting
 * a compound deletes its associations first.
 */
module CompuestoService {
  import opened Results
  import opened ObjectIds
  import opened Text
  import opened Documents
  import Repo = CompuestoRepo
  import Asoc = CompuestoPorMedicamentoRepo

  /** `get_all_compuestos`: every stored compound, in collection order. */
  method GetAllCompuestos(db: Database) returns (r: seq<CompuestoView>)
    ensures |r| == |db.compuestos|
    ensures forall i | 0 <= i < |r| :: r[i] == Repo.ViewOf(db.compuestos[i])
  {
    r := Repo.GetAll(db);
  }

  /** `get_compuesto_by_id`: the compound with that id, or `NotFound` (also for a malformed id). */
  function GetCompuestoById(docs: seq<Compuesto>, s: string): (r: Result<CompuestoView>)
    ensures r.Err? <==> !HasCompuesto(docs, s)
    ensures r.Err? ==> r.failure == NotFound
    ensures r.Ok? ==> exists d | d in docs :: d.id == Parse(s).value && r.value == Repo.ViewOf(d)
  {
    match Repo.GetById(docs, s)
    case None => Err(NotFound)
    case Some(v) => Ok(v)
  }

  /** Adding a compound leaves every association linked. */
  lemma AppendKeepsLinked(ms: seq<Medicamento>, cs: seq<Compuesto>, asocs: seq<Asociacion>, d: Compuesto)
    requires Linked(ms, cs, asocs)
    ensures Linked(ms, cs + [d], asocs)
  {
    assert CompuestoIds(cs + [d]) == CompuestoIds(cs) + [d.id];
  }

  /** `create_compuesto`: refuses a blank `nombre`; otherwise stores the compound under the fresh `newId`. */
  method CreateCompuesto(db: Database, input: CompuestoInput, newId: ObjectId) returns (r: Result<CompuestoView>)
    requires db.Valid()
    requires newId !in CompuestoIds(db.compuestos)
    modifies db
    ensures db.Valid()
    ensures old(db.Intact()) ==> db.Intact()
    ensures IsBlank(input.nombre) ==> r == Err(ValidationFailure) && unchanged(db)
    ensures !IsBlank(input.nombre) ==>
      && r == Ok(CompuestoView(ToString(newId), input.nombre))
      && db.compuestos == old(db.compuestos) + [Compuesto(newId, input.nombre)]
      && db.medicamentos == old(db.medicamentos) && db.asociaciones == old(db.asociaciones)
  {
    if IsBlank(input.nombre) {
      return Err(ValidationFailure);
    }
    ghost var before := db.compuestos;
    var created := Repo.Create(db, input, newId);
    if Linked(db.medicamentos, before, db.asociaciones) {
      AppendKeepsLinked(db.medicamentos, before, db.asociaciones, Compuesto(newId, input.nombre));
    }
    r := Ok(created.value);
  }

  /**
   * `update_compuesto`: `NotFound` first, then the blank-name check;
   * otherwise overwrites the compound's name and returns it.
   */
  method UpdateCompuesto(db: Database, s: string, input: CompuestoInput) returns (r: Result<CompuestoView>)
    requires db.Valid()
    modifies db
    ensures db.Valid()
    ensures old(db.Intact()) ==> db.Intact()
    ensures !HasCompuesto(old(db.compuestos), s) ==> r == Err(NotFound) && unchanged(db)
    ensures HasCompuesto(old(db.compuestos), s) && IsBlank(input.nombre) ==> r == Err(ValidationFailure) && unchanged(db)
    ensures HasCompuesto(old(db.compuestos), s) && !IsBlank(input.nombre) ==>
      && r == Ok(CompuestoView(ToString(Parse(s).value), input.nombre))
      && db.compuestos == Repo.Overwrite(old(db.compuestos), Parse(s).value, input)
      && db.medicamentos == old(db.medicamentos) && db.asociaciones == old(db.asociaciones)
  {
    var existing := Repo.GetById(db.compuestos, s);
    if existing.None? {
      return Err(NotFound);
    }
    if IsBlank(input.nombre) {
      return Err(ValidationFailure);
    }
    var updated := Repo.Update(db, s, input);
    r := Ok(updated.value.value);
  }

  /**
   * The cascade keeps the store linked: once the associations of `c` are
   * gone, removing `c` itself leaves no association dangling.
   */
  lemma CascadeKeepsLinked(ms: seq<Medicamento>, cs: seq<Compuesto>, asocs: seq<Asociacion>, c: ObjectId)
    requires Linked(ms, cs, asocs)
    ensures Linked(ms, Repo.Without(cs, c), Asoc.Surviving(asocs, Asoc.CompuestoKey, c))
  {
    var rest := Repo.Without(cs, c);
    Asoc.SurvivingMembers(asocs, Asoc.CompuestoKey, c);
    forall a | a in Asoc.Surviving(asocs, Asoc.CompuestoKey, c)
      ensures a.compuestoId in CompuestoIds(rest)
    {
      var ids := CompuestoIds(cs);
      var i :| 0 <= i < |ids| && ids[i] == a.compuestoId;
      assert cs[i] in cs && cs[i].id != c;
      CompuestoIdIn(rest, cs[i]);
    }
  }

  /** Why the cascade is needed: removing a referenced compound alone leaves a dangling association. */
  lemma DeleteAloneDangles(ms: seq<Medicamento>, cs: seq<Compuesto>, asocs: seq<Asociacion>, a: Asociacion)
    requires Unique(CompuestoIds(cs))
    requires a in asocs
    ensures !Linked(ms, Repo.Without(cs, a.compuestoId), asocs)
  {
    assert a.compuestoId !in CompuestoIds(Repo.Without(cs, a.compuestoId));
  }

  /** After the cascade, the compound's medication lookup is empty. */
  lemma CascadeEmptiesJoin(asocs: seq<Asociacion>, ms: seq<Medicamento>, c: ObjectId)
    ensures Repo.MedicamentosOf(Asoc.Surviving(asocs, Asoc.CompuestoKey, c), ms, c) == []
  {
    Asoc.SurvivingMembers(asocs, Asoc.CompuestoKey, c);
    Repo.JoinEmptyWithoutReference(Asoc.Surviving(asocs, Asoc.CompuestoKey, c), ms, c);
  }

  /**
   * `delete_compuesto`: `NotFound` when absent; otherwise deletes every
   * association of the compound, then the compound, and reports both.
   */
  method DeleteCompuesto(db: Database, s: string) returns (r: Result<DeleteReport>)
    requires db.Valid()
    modifies db
    ensures db.Valid()
    ensures old(db.Intact()) ==> db.Intact()
    ensures !HasCompuesto(old(db.compuestos), s) ==> r == Err(NotFound) && unchanged(db)
    ensures HasCompuesto(old(db.compuestos), s) ==>
      var c := Parse(s).value;
      && r == Ok(DeleteReport(true, s, |Asoc.Referencing(old(db.asociaciones), Asoc.CompuestoKey, c)|))
      && db.asociaciones == Asoc.Surviving(old(db.asociaciones), Asoc.CompuestoKey, c)
      && db.compuestos == Repo.Without(old(db.compuestos), c)
      && db.medicamentos == old(db.medicamentos)
      && !HasCompuesto(db.compuestos, s)
      && (forall a | a in db.asociaciones :: a.compuestoId != c)
      && Repo.MedicamentosOf(db.asociaciones, db.medicamentos, c) == []
  {
    var existing := Repo.GetById(db.compuestos, s);
    if existing.None? {
      return Err(NotFound);
    }
    ghost var c := Parse(s).value;
    ghost var cs, asocs := db.compuestos, db.asociaciones;
    var related := Asoc.DeleteByCompuestoId(db, s);
    var deleted := Repo.Delete(db, s);
    Asoc.SurvivingMembers(asocs, Asoc.CompuestoKey, c);
    CascadeEmptiesJoin(asocs, db.medicamentos, c);
    if Linked(db.medicamentos, cs, asocs) {
      CascadeKeepsLinked(db.medicamentos, cs, asocs, c);
    }
    r := Ok(DeleteReport(deleted.value, s, related.value));
  }

  /** `get_medicamentos_by_compuesto`: `NotFound` when absent, else the enriched lookup. */
  method GetMedicamentosByCompuesto(db: Database, s: string) returns (r: Result<seq<Repo.MedicamentoRow>>)
    ensures !HasCompuesto(db.compuestos, s) ==> r == Err(NotFound)
    ensures HasCompuesto(db.compuestos, s) ==>
      r == Ok(Repo.MedicamentosOf(db.asociaciones, db.medicamentos, Parse(s).value))
  {
    var existing := Repo.GetById(db.compuestos, s);
    if existing.None? {
      return Err(NotFound);
    }
    var rows := Repo.GetMedicamentosByCompuestoId(db, s);
    r := Ok(rows.value);
  }
}
