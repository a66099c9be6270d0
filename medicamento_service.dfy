/**
 * The medication service: the business rules in front of the repositories.
 * Lookups turn absence into `NotFound`; writes validate their text fields
 * and check existence first, and change nothing when they refuse; deleting
 * a medication deletes its associations first.
 */
module MedicamentoService {
  import opened Results
  import opened ObjectIds
  import opened Text
  import opened Documents
  import Repo = MedicamentoRepo
  import CRepo = CompuestoRepo
  import Asoc = CompuestoPorMedicamentoRepo

  /** `get_all_medicamentos`: every stored medication, in collection order. */
  method GetAllMedicamentos(db: Database) returns (r: seq<MedicamentoView>)
    ensures |r| == |db.medicamentos|
    ensures forall i | 0 <= i < |r| :: r[i] == Repo.ViewOf(db.medicamentos[i])
  {
    r := Repo.GetAll(db);
  }

  /** `get_medicamento_by_id`: the medication with that id, or `NotFound` (also for a malformed id). */
  function GetMedicamentoById(docs: seq<Medicamento>, s: string): (r: Result<MedicamentoView>)
    ensures r.Err? <==> !HasMedicamento(docs, s)
    ensures r.Err? ==> r.failure == NotFound
    ensures r.Ok? ==> exists d | d in docs :: d.id == Parse(s).value && r.value == Repo.ViewOf(d)
  {
    match Repo.GetById(docs, s)
    case None => Err(NotFound)
    case Some(v) => Ok(v)
  }

  /**
   * `create_medicamento`: refuses a blank `nombre`, then a blank
   * `fabricante`; otherwise stores the medication under the fresh `newId`.
   */
  method CreateMedicamento(db: Database, input: MedicamentoInput, newId: ObjectId) returns (r: Result<MedicamentoView>)
    requires db.Valid()
    requires newId !in MedicamentoIds(db.medicamentos)
    modifies db
    ensures db.Valid()
    ensures old(db.Intact()) ==> db.Intact()
    ensures IsBlank(input.nombre) || IsBlank(input.fabricante) ==> r == Err(ValidationFailure) && unchanged(db)
    ensures !IsBlank(input.nombre) && !IsBlank(input.fabricante) ==>
      && r == Ok(MedicamentoView(ToString(newId), input.nombre, input.fabricante))
      && db.medicamentos == old(db.medicamentos) + [Medicamento(newId, input.nombre, input.fabricante)]
      && db.compuestos == old(db.compuestos) && db.asociaciones == old(db.asociaciones)
  {
    if IsBlank(input.nombre) {
      return Err(ValidationFailure);
    }
    if IsBlank(input.fabricante) {
      return Err(ValidationFailure);
    }
    ghost var before := db.medicamentos;
    var created := Repo.Create(db, input, newId);
    if Linked(before, db.compuestos, db.asociaciones) {
      AppendKeepsLinked(before, db.compuestos, db.asociaciones, Medicamento(newId, input.nombre, input.fabricante));
    }
    r := Ok(created.value);
  }

  /** Adding a medication leaves every association linked. */
  lemma AppendKeepsLinked(ms: seq<Medicamento>, cs: seq<Compuesto>, asocs: seq<Asociacion>, d: Medicamento)
    requires Linked(ms, cs, asocs)
    ensures Linked(ms + [d], cs, asocs)
  {
    assert MedicamentoIds(ms + [d]) == MedicamentoIds(ms) + [d.id];
  }

  /**
   * `update_medicamento`: `NotFound` first, then the two blank checks;
   * otherwise overwrites the medication's fields and returns it.
   */
  method UpdateMedicamento(db: Database, s: string, input: MedicamentoInput) returns (r: Result<MedicamentoView>)
    requires db.Valid()
    modifies db
    ensures db.Valid()
    ensures old(db.Intact()) ==> db.Intact()
    ensures !HasMedicamento(old(db.medicamentos), s) ==> r == Err(NotFound) && unchanged(db)
    ensures HasMedicamento(old(db.medicamentos), s) && (IsBlank(input.nombre) || IsBlank(input.fabricante)) ==>
      r == Err(ValidationFailure) && unchanged(db)
    ensures HasMedicamento(old(db.medicamentos), s) && !IsBlank(input.nombre) && !IsBlank(input.fabricante) ==>
      && r == Ok(MedicamentoView(ToString(Parse(s).value), input.nombre, input.fabricante))
      && db.medicamentos == Repo.Overwrite(old(db.medicamentos), Parse(s).value, input)
      && db.compuestos == old(db.compuestos) && db.asociaciones == old(db.asociaciones)
  {
    var existing := Repo.GetById(db.medicamentos, s);
    if existing.None? {
      return Err(NotFound);
    }
    if IsBlank(input.nombre) {
      return Err(ValidationFailure);
    }
    if IsBlank(input.fabricante) {
      return Err(ValidationFailure);
    }
    var updated := Repo.Update(db, s, input);
    r := Ok(updated.value.value);
  }

  /**
   * The cascade keeps the store linked: once the associations of `m` are
   * gone, removing `m` itself leaves no association dangling.
   */
  lemma CascadeKeepsLinked(ms: seq<Medicamento>, cs: seq<Compuesto>, asocs: seq<Asociacion>, m: ObjectId)
    requires Linked(ms, cs, asocs)
    ensures Linked(Repo.Without(ms, m), cs, Asoc.Surviving(asocs, Asoc.MedicamentoKey, m))
  {
    var rest := Repo.Without(ms, m);
    Asoc.SurvivingMembers(asocs, Asoc.MedicamentoKey, m);
    forall a | a in Asoc.Surviving(asocs, Asoc.MedicamentoKey, m)
      ensures a.medicamentoId in MedicamentoIds(rest)
    {
      var ids := MedicamentoIds(ms);
      var i :| 0 <= i < |ids| && ids[i] == a.medicamentoId;
      assert ms[i] in ms && ms[i].id != m;
      MedicamentoIdIn(rest, ms[i]);
    }
  }

  /** Why the cascade is needed: removing a referenced medication alone leaves a dangling association. */
  lemma DeleteAloneDangles(ms: seq<Medicamento>, cs: seq<Compuesto>, asocs: seq<Asociacion>, a: Asociacion)
    requires Unique(MedicamentoIds(ms))
    requires a in asocs
    ensures !Linked(Repo.Without(ms, a.medicamentoId), cs, asocs)
  {
    assert a.medicamentoId !in MedicamentoIds(Repo.Without(ms, a.medicamentoId));
  }

  /** After the cascade, the medication's compound lookup is empty. */
  lemma CascadeEmptiesJoin(asocs: seq<Asociacion>, cs: seq<Compuesto>, m: ObjectId)
    ensures Repo.CompuestosOf(Asoc.Surviving(asocs, Asoc.MedicamentoKey, m), cs, m) == []
  {
    Asoc.SurvivingMembers(asocs, Asoc.MedicamentoKey, m);
    Repo.JoinEmptyWithoutReference(Asoc.Surviving(asocs, Asoc.MedicamentoKey, m), cs, m);
  }

  /**
   * `delete_medicamento`: `NotFound` when absent; otherwise deletes every
   * association of the medication, then the medication, and reports both.
   */
  method DeleteMedicamento(db: Database, s: string) returns (r: Result<DeleteReport>)
    requires db.Valid()
    modifies db
    ensures db.Valid()
    ensures old(db.Intact()) ==> db.Intact()
    ensures !HasMedicamento(old(db.medicamentos), s) ==> r == Err(NotFound) && unchanged(db)
    ensures HasMedicamento(old(db.medicamentos), s) ==>
      var m := Parse(s).value;
      && r == Ok(DeleteReport(true, s, |Asoc.Referencing(old(db.asociaciones), Asoc.MedicamentoKey, m)|))
      && db.asociaciones == Asoc.Surviving(old(db.asociaciones), Asoc.MedicamentoKey, m)
      && db.medicamentos == Repo.Without(old(db.medicamentos), m)
      && db.compuestos == old(db.compuestos)
      && !HasMedicamento(db.medicamentos, s)
      && (forall a | a in db.asociaciones :: a.medicamentoId != m)
      && Repo.CompuestosOf(db.asociaciones, db.compuestos, m) == []
  {
    var existing := Repo.GetById(db.medicamentos, s);
    if existing.None? {
      return Err(NotFound);
    }
    ghost var m := Parse(s).value;
    ghost var ms, asocs := db.medicamentos, db.asociaciones;
    var related := Asoc.DeleteByMedicamentoId(db, s);
    var deleted := Repo.Delete(db, s);
    Asoc.SurvivingMembers(asocs, Asoc.MedicamentoKey, m);
    CascadeEmptiesJoin(asocs, db.compuestos, m);
    if Linked(ms, db.compuestos, asocs) {
      CascadeKeepsLinked(ms, db.compuestos, asocs, m);
    }
    r := Ok(DeleteReport(deleted.value, s, related.value));
  }

  /** `get_compuestos_by_medicamento`: `NotFound` when absent, else the enriched lookup. */
  method GetCompuestosByMedicamento(db: Database, s: string) returns (r: Result<seq<Repo.CompuestoRow>>)
    ensures !HasMedicamento(db.medicamentos, s) ==> r == Err(NotFound)
    ensures HasMedicamento(db.medicamentos, s) ==>
      r == Ok(Repo.CompuestosOf(db.asociaciones, db.compuestos, Parse(s).value))
  {
    var existing := Repo.GetById(db.medicamentos, s);
    if existing.None? {
      return Err(NotFound);
    }
    var rows := Repo.GetCompuestosByMedicamentoId(db, s);
    r := Ok(rows.value);
  }

  /**
   * `add_compuesto_to_medicamento`: in this order, `NotFound` for the
   * medication, `NotFound` for the compound, a concentration that is not
   * positive, a blank unit; otherwise stores one new association (a
   * duplicate pair is not refused) and returns it.
   */
  method AddCompuestoToMedicamento(
    db: Database, medicamentoId: string, compuestoId: string, concentracion: real, unidad: string, newId: ObjectId)
    returns (r: Result<AsociacionView>)
    requires db.Valid()
    requires newId !in AsociacionIds(db.asociaciones)
    modifies db
    ensures db.Valid()
    ensures old(db.Intact()) ==> db.Intact()
    ensures !HasMedicamento(old(db.medicamentos), medicamentoId) ==> r == Err(NotFound) && unchanged(db)
    ensures HasMedicamento(old(db.medicamentos), medicamentoId) && !HasCompuesto(old(db.compuestos), compuestoId) ==>
      r == Err(NotFound) && unchanged(db)
    ensures HasMedicamento(old(db.medicamentos), medicamentoId) && HasCompuesto(old(db.compuestos), compuestoId) ==>
      (concentracion <= 0.0 || IsBlank(unidad) ==> r == Err(ValidationFailure) && unchanged(db))
    ensures HasMedicamento(old(db.medicamentos), medicamentoId) && HasCompuesto(old(db.compuestos), compuestoId) ==>
      (concentracion > 0.0 && !IsBlank(unidad) ==>
        var stored := Asociacion(newId, Parse(medicamentoId).value, Parse(compuestoId).value, concentracion, unidad);
        && r == Ok(Asoc.ViewOf(stored))
        && db.asociaciones == old(db.asociaciones) + [stored]
        && db.medicamentos == old(db.medicamentos) && db.compuestos == old(db.compuestos))
  {
    var medicamento := Repo.GetById(db.medicamentos, medicamentoId);
    if medicamento.None? {
      return Err(NotFound);
    }
    var compuesto := CRepo.GetById(db.compuestos, compuestoId);
    if compuesto.None? {
      return Err(NotFound);
    }
    if concentracion <= 0.0 {
      return Err(ValidationFailure);
    }
    if IsBlank(unidad) {
      return Err(ValidationFailure);
    }
    var data := AsociacionInput(None, medicamentoId, compuestoId, concentracion, unidad);
    var created := Asoc.Create(db, data, newId);
    r := Ok(created.value.value);
  }
}
