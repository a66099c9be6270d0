/**
 * The repository of the `compuestos` collection: CRUD over its documents
 * and the enriched lookup of the medications that contain a compound.
 */
module CompuestoRepo {
  import opened Results
  import opened ObjectIds
  import opened Documents
  import Asoc = CompuestoPorMedicamentoRepo

  /** `str(_id)` applied to a stored compound. */
  function ViewOf(d: Compuesto): CompuestoView {
    CompuestoView(ToString(d.id), d.nombre)
  }

  /** `get_all`: one model per stored compound, in collection order, `_id` as text. */
  method GetAll(db: Database) returns (r: seq<CompuestoView>)
    ensures |r| == |db.compuestos|
    ensures forall i | 0 <= i < |r| :: r[i] == ViewOf(db.compuestos[i])
  {
    r := [];
    var i := 0;
    while i < |db.compuestos|
      invariant 0 <= i <= |db.compuestos|
      invariant |r| == i
      invariant forall j | 0 <= j < i :: r[j] == ViewOf(db.compuestos[j])
    {
      r := r + [ViewOf(db.compuestos[i])];
      i := i + 1;
    }
  }

  /**
   * `get_by_id`: absent, never an error, when `s` is not an identifier text
   * or no compound has that identifier.
   */
  function GetById(docs: seq<Compuesto>, s: string): (r: Option<CompuestoView>)
    ensures r.Some? <==> Parse(s).Some? && Parse(s).value in CompuestoIds(docs)
    ensures r.Some? ==> exists d | d in docs :: d.id == Parse(s).value && r.value == ViewOf(d)
  {
    match Parse(s)
    case None => None
    case Some(id) =>
      match IndexOf(CompuestoIds(docs), id)
      case None => None
      case Some(i) =>
        assert docs[i] in docs && docs[i].id == CompuestoIds(docs)[i];
        Some(ViewOf(docs[i]))
  }

  /** With unique identifiers, looking a compound up by its rendered id finds exactly it. */
  lemma GetByIdFinds(docs: seq<Compuesto>, i: nat)
    requires Unique(CompuestoIds(docs)) && i < |docs|
    ensures GetById(docs, ToString(docs[i].id)) == Some(ViewOf(docs[i]))
  {
    ParseToString(docs[i].id);
    assert CompuestoIds(docs)[i] == docs[i].id;
    IndexOfUnique(CompuestoIds(docs), i);
  }

  /**
   * `create`: drops any client `_id`, inserts one compound under the
   * store's fresh `newId`, and returns it re-read by that id.
   */
  method Create(db: Database, input: CompuestoInput, newId: ObjectId) returns (r: Option<CompuestoView>)
    requires db.Valid()
    requires newId !in CompuestoIds(db.compuestos)
    modifies db
    ensures db.Valid()
    ensures db.medicamentos == old(db.medicamentos) && db.asociaciones == old(db.asociaciones)
    ensures db.compuestos == old(db.compuestos) + [Compuesto(newId, input.nombre)]
    ensures r == Some(CompuestoView(ToString(newId), input.nombre))
    ensures r == GetById(db.compuestos, r.value.id)
  {
    var stored := Compuesto(newId, input.nombre);
    var ids := CompuestoIds(db.compuestos);
    UniqueAppend(ids, newId);
    assert CompuestoIds(db.compuestos + [stored]) == ids + [newId];
    db.compuestos := db.compuestos + [stored];
    GetByIdFinds(db.compuestos, |db.compuestos| - 1);
    r := GetById(db.compuestos, ToString(newId));
  }

  /**
   * `update_one({_id: id}, {$set: ...})`: replaces `nombre` of the first
   * compound with that identifier; everything else is kept.
   */
  function Overwrite(docs: seq<Compuesto>, id: ObjectId, input: CompuestoInput): (r: seq<Compuesto>)
    ensures CompuestoIds(r) == CompuestoIds(docs)
    ensures forall i | 0 <= i < |docs| && docs[i].id != id :: r[i] == docs[i]
    ensures Unique(CompuestoIds(docs)) ==>
      forall i | 0 <= i < |docs| && docs[i].id == id :: r[i] == Compuesto(id, input.nombre)
  {
    match IndexOf(CompuestoIds(docs), id)
    case None =>
      assert forall i | 0 <= i < |docs| :: docs[i].id == CompuestoIds(docs)[i];
      docs
    case Some(k) =>
      var r := docs[k := Compuesto(id, input.nombre)];
      assert CompuestoIds(r) == CompuestoIds(docs) by {
        assert forall i | 0 <= i < |docs| :: CompuestoIds(r)[i] == CompuestoIds(docs)[i];
      }
      assert forall i | 0 <= i < |docs| :: docs[i].id == CompuestoIds(docs)[i];
      r
  }

  /**
   * `update`: raises on a malformed id; otherwise overwrites the name of
   * the target and returns it re-read (absent when no compound has the id).
   */
  method Update(db: Database, s: string, input: CompuestoInput) returns (r: Outcome<Option<CompuestoView>>)
    requires db.Valid()
    modifies db
    ensures db.Valid()
    ensures db.medicamentos == old(db.medicamentos) && db.asociaciones == old(db.asociaciones)
    ensures Parse(s).None? ==> r == InvalidId && db.compuestos == old(db.compuestos)
    ensures Parse(s).Some? ==> db.compuestos == Overwrite(old(db.compuestos), Parse(s).value, input)
    ensures Parse(s).Some? && Parse(s).value !in CompuestoIds(old(db.compuestos)) ==> r == Done(None)
    ensures Parse(s).Some? && Parse(s).value in CompuestoIds(old(db.compuestos)) ==>
      r == Done(Some(CompuestoView(ToString(Parse(s).value), input.nombre)))
  {
    var id := Parse(s);
    if id.None? {
      return InvalidId;
    }
    db.compuestos := Overwrite(db.compuestos, id.value, input);
    r := Done(GetById(db.compuestos, s));
  }

  /** `delete_one({_id: id})`: removes the first compound with that identifier, if any. */
  function Without(docs: seq<Compuesto>, id: ObjectId): (r: seq<Compuesto>)
    ensures |r| == if id in CompuestoIds(docs) then |docs| - 1 else |docs|
    ensures forall d | d in r :: d in docs
    ensures forall d | d in docs && d.id != id :: d in r
    ensures Unique(CompuestoIds(docs)) ==> Unique(CompuestoIds(r)) && id !in CompuestoIds(r)
  {
    match IndexOf(CompuestoIds(docs), id)
    case None => docs
    case Some(k) =>
      var r := docs[..k] + docs[k + 1..];
      var ids := CompuestoIds(docs);
      assert CompuestoIds(r) == ids[..k] + ids[k + 1..];
      if Unique(ids) then
        UniqueRemove(ids, k);
        r
      else r
  }

  /** `delete`: raises on a malformed id; otherwise reports whether a compound was removed. */
  method Delete(db: Database, s: string) returns (r: Outcome<bool>)
    requires db.Valid()
    modifies db
    ensures db.Valid()
    ensures db.medicamentos == old(db.medicamentos) && db.asociaciones == old(db.asociaciones)
    ensures Parse(s).None? ==> r == InvalidId && db.compuestos == old(db.compuestos)
    ensures Parse(s).Some? ==>
      && r == Done(Parse(s).value in CompuestoIds(old(db.compuestos)))
      && db.compuestos == Without(old(db.compuestos), Parse(s).value)
  {
    var id := Parse(s);
    if id.None? {
      return InvalidId;
    }
    var before := |db.compuestos|;
    db.compuestos := Without(db.compuestos, id.value);
    r := Done(|db.compuestos| < before);
  }

  /** A row of the enriched lookup: the medication's fields plus the association's measurement. */
  datatype MedicamentoRow = MedicamentoRow(
    id: string,
    nombre: string,
    fabricante: string,
    concentracion: real,
    unidadMedida: string)

  /** `$lookup` from `medicamentos`: every medication whose `_id` equals the association's `medicamento_id`. */
  function LookupMedicamentos(ms: seq<Medicamento>, id: ObjectId): (r: seq<Medicamento>)
    ensures |r| <= |ms|
    ensures forall d | d in r :: d in ms && d.id == id
  {
    if ms == [] then []
    else (if ms[0].id == id then [ms[0]] else []) + LookupMedicamentos(ms[1..], id)
  }

  /** `$unwind`: one pair per looked-up medication; none when the lookup found nothing. */
  function Unwind(a: Asociacion, found: seq<Medicamento>): (r: seq<(Asociacion, Medicamento)>)
    ensures |r| == |found|
  {
    seq(|found|, i requires 0 <= i < |found| => (a, found[i]))
  }

  /** `$lookup` followed by `$unwind` over a sequence of associations: the inner join. */
  function InnerJoin(s: seq<Asociacion>, ms: seq<Medicamento>): seq<(Asociacion, Medicamento)> {
    if s == [] then []
    else Unwind(s[0], LookupMedicamentos(ms, s[0].medicamentoId)) + InnerJoin(s[1..], ms)
  }

  /** `$project`: medication id as text, its name and maker, association concentration and unit. */
  function RowOf(a: Asociacion, d: Medicamento): MedicamentoRow {
    MedicamentoRow(ToString(d.id), d.nombre, d.fabricante, a.concentracion, a.unidadMedida)
  }

  /** `$project` over the joined pairs: one row per pair, in order. */
  function Project(j: seq<(Asociacion, Medicamento)>): (r: seq<MedicamentoRow>)
    ensures |r| == |j|
  {
    seq(|j|, i requires 0 <= i < |j| => RowOf(j[i].0, j[i].1))
  }

  /** The aggregation pipeline: `$match` on `compuesto_id`, `$lookup`, `$unwind`, `$project`. */
  function MedicamentosOf(asocs: seq<Asociacion>, ms: seq<Medicamento>, c: ObjectId): seq<MedicamentoRow> {
    Project(InnerJoin(Asoc.Referencing(asocs, Asoc.CompuestoKey, c), ms))
  }

  lemma {:induction false} LookupMembers(ms: seq<Medicamento>, id: ObjectId)
    ensures forall d :: d in LookupMedicamentos(ms, id) <==> d in ms && d.id == id
  {
    if ms != [] {
      LookupMembers(ms[1..], id);
      assert ms == [ms[0]] + ms[1..];
    }
  }

  /** Under the unique index on `_id`, the lookup finds one medication when it exists and none otherwise. */
  lemma {:induction false} LookupUnique(ms: seq<Medicamento>, id: ObjectId)
    requires Unique(MedicamentoIds(ms))
    ensures |LookupMedicamentos(ms, id)| == if id in MedicamentoIds(ms) then 1 else 0
  {
    if ms != [] {
      var tail := ms[1..];
      assert MedicamentoIds(tail) == MedicamentoIds(ms)[1..];
      LookupUnique(tail, id);
      assert MedicamentoIds(ms)[0] == ms[0].id;
      assert id in MedicamentoIds(ms) <==> ms[0].id == id || id in MedicamentoIds(tail);
    }
  }

  /** A joined pair links an association to a medication it names. */
  lemma {:induction false} InnerJoinMembers(s: seq<Asociacion>, ms: seq<Medicamento>)
    ensures forall p: (Asociacion, Medicamento) :: p in InnerJoin(s, ms) <==> p.0 in s && p.1 in ms && p.1.id == p.0.medicamentoId
  {
    if s != [] {
      InnerJoinMembers(s[1..], ms);
      LookupMembers(ms, s[0].medicamentoId);
      assert s == [s[0]] + s[1..];
      var found := LookupMedicamentos(ms, s[0].medicamentoId);
      assert forall p: (Asociacion, Medicamento) :: p in Unwind(s[0], found) <==> p.0 == s[0] && p.1 in found by {
        forall p: (Asociacion, Medicamento) | p.0 == s[0] && p.1 in found
          ensures p in Unwind(s[0], found)
        {
          var i :| 0 <= i < |found| && found[i] == p.1;
          assert Unwind(s[0], found)[i] == p;
        }
      }
    }
  }

  lemma {:induction false} InnerJoinAppend(s: seq<Asociacion>, t: seq<Asociacion>, ms: seq<Medicamento>)
    ensures InnerJoin(s + t, ms) == InnerJoin(s, ms) + InnerJoin(t, ms)
  {
    if s == [] {
      assert s + t == t;
    } else {
      assert (s + t)[0] == s[0];
      assert (s + t)[1..] == s[1..] + t;
      InnerJoinAppend(s[1..], t, ms);
    }
  }

  /** The associations whose medication exists: the ones `$unwind` keeps. */
  function Resolvable(s: seq<Asociacion>, ms: seq<Medicamento>): (r: seq<Asociacion>)
    ensures |r| <= |s|
    ensures forall a | a in r :: a in s && a.medicamentoId in MedicamentoIds(ms)
  {
    if s == [] then []
    else (if s[0].medicamentoId in MedicamentoIds(ms) then [s[0]] else []) + Resolvable(s[1..], ms)
  }

  /** Under the unique index on `_id`, each resolvable association contributes one pair and every other none. */
  lemma {:induction false} InnerJoinCount(s: seq<Asociacion>, ms: seq<Medicamento>)
    requires Unique(MedicamentoIds(ms))
    ensures |InnerJoin(s, ms)| == |Resolvable(s, ms)|
  {
    if s != [] {
      LookupUnique(ms, s[0].medicamentoId);
      InnerJoinCount(s[1..], ms);
    }
  }

  /** With no dangling reference, every association is resolvable. */
  lemma {:induction false} ResolvableAll(s: seq<Asociacion>, ms: seq<Medicamento>)
    requires forall a | a in s :: a.medicamentoId in MedicamentoIds(ms)
    ensures Resolvable(s, ms) == s
  {
    if s != [] {
      assert s[0] in s;
      assert forall a | a in s[1..] :: a in s;
      ResolvableAll(s[1..], ms);
      assert s == [s[0]] + s[1..];
    }
  }

  /**
   * The rows of the lookup are exactly the projections of (association,
   * medication) pairs where the association belongs to `c` and names the medication.
   */
  lemma JoinMembers(asocs: seq<Asociacion>, ms: seq<Medicamento>, c: ObjectId, row: MedicamentoRow)
    ensures row in MedicamentosOf(asocs, ms, c) <==>
      exists a, d | a in asocs && d in ms :: a.compuestoId == c && d.id == a.medicamentoId && row == RowOf(a, d)
  {
    var matched := Asoc.Referencing(asocs, Asoc.CompuestoKey, c);
    var j := InnerJoin(matched, ms);
    Asoc.ReferencingMembers(asocs, Asoc.CompuestoKey, c);
    InnerJoinMembers(matched, ms);
    if row in Project(j) {
      var i :| 0 <= i < |j| && Project(j)[i] == row;
      assert j[i] in j;
    }
    if exists a, d | a in asocs && d in ms :: a.compuestoId == c && d.id == a.medicamentoId && row == RowOf(a, d) {
      var a, d :| a in asocs && d in ms && a.compuestoId == c && d.id == a.medicamentoId && row == RowOf(a, d);
      assert (a, d) in j;
      var i :| 0 <= i < |j| && j[i] == (a, d);
      assert Project(j)[i] == row;
    }
  }

  /** A compound no association references is in no medication. */
  lemma JoinEmptyWithoutReference(asocs: seq<Asociacion>, ms: seq<Medicamento>, c: ObjectId)
    requires forall a | a in asocs :: a.compuestoId != c
    ensures MedicamentosOf(asocs, ms, c) == []
  {
    Asoc.SurvivingUntouched(asocs, Asoc.CompuestoKey, c);
    Asoc.DeleteManyPartition(asocs, Asoc.CompuestoKey, c);
  }

  /**
   * The lookup yields one row per association of `c` whose medication
   * exists; an association whose medication is missing yields none.
   */
  lemma JoinRowCount(asocs: seq<Asociacion>, ms: seq<Medicamento>, c: ObjectId)
    requires Unique(MedicamentoIds(ms))
    ensures |MedicamentosOf(asocs, ms, c)| == |Resolvable(Asoc.Referencing(asocs, Asoc.CompuestoKey, c), ms)|
  {
    InnerJoinCount(Asoc.Referencing(asocs, Asoc.CompuestoKey, c), ms);
  }

  /**
   * With unique medication ids and no dangling reference from `c`'s
   * associations, the lookup yields exactly one row per association of `c`.
   */
  lemma JoinOneRowPerAssociation(asocs: seq<Asociacion>, ms: seq<Medicamento>, c: ObjectId)
    requires Unique(MedicamentoIds(ms))
    requires forall a | a in asocs && a.compuestoId == c :: a.medicamentoId in MedicamentoIds(ms)
    ensures |MedicamentosOf(asocs, ms, c)| == |Asoc.Referencing(asocs, Asoc.CompuestoKey, c)|
  {
    Asoc.ReferencingMembers(asocs, Asoc.CompuestoKey, c);
    ResolvableAll(Asoc.Referencing(asocs, Asoc.CompuestoKey, c), ms);
    JoinRowCount(asocs, ms, c);
  }

  /** The pipeline streamed one association at a time. */
  lemma MedicamentosOfSnoc(s: seq<Asociacion>, a: Asociacion, ms: seq<Medicamento>, c: ObjectId)
    ensures MedicamentosOf(s + [a], ms, c) ==
      MedicamentosOf(s, ms, c) + (if a.compuestoId == c then Project(Unwind(a, LookupMedicamentos(ms, a.medicamentoId))) else [])
  {
    var k := Asoc.CompuestoKey;
    Asoc.ReferencingAppend(s, [a], k, c);
    assert [a][1..] == [];
    var one := Asoc.Referencing([a], k, c);
    InnerJoinAppend(Asoc.Referencing(s, k, c), one, ms);
    if a.compuestoId == c {
      assert one == [a];
      assert InnerJoin(one, ms) == Unwind(a, LookupMedicamentos(ms, a.medicamentoId)) + InnerJoin([], ms);
    } else {
      assert one == [];
    }
    var x := InnerJoin(Asoc.Referencing(s, k, c), ms);
    var y := InnerJoin(one, ms);
    ProjectAppend(x, y);
  }

  /** `$project` works row by row, so it distributes over concatenation. */
  lemma ProjectAppend(x: seq<(Asociacion, Medicamento)>, y: seq<(Asociacion, Medicamento)>)
    ensures Project(x + y) == Project(x) + Project(y)
  {
    assert forall i | 0 <= i < |x + y| :: Project(x + y)[i] == (Project(x) + Project(y))[i];
  }

  /**
   * `get_medicamentos_by_compuesto_id`: raises on a malformed id; otherwise
   * runs the pipeline over the join collection and collects its rows.
   */
  method GetMedicamentosByCompuestoId(db: Database, s: string) returns (r: Outcome<seq<MedicamentoRow>>)
    ensures Parse(s).None? ==> r == InvalidId
    ensures Parse(s).Some? ==> r == Done(MedicamentosOf(db.asociaciones, db.medicamentos, Parse(s).value))
  {
    var id := Parse(s);
    if id.None? {
      return InvalidId;
    }
    var c := id.value;
    var all := db.asociaciones;
    var rows: seq<MedicamentoRow> := [];
    var i := 0;
    while i < |all|
      invariant 0 <= i <= |all|
      invariant rows == MedicamentosOf(all[..i], db.medicamentos, c)
    {
      var a := all[i];
      assert all[..i + 1] == all[..i] + [a];
      MedicamentosOfSnoc(all[..i], a, db.medicamentos, c);
      if a.compuestoId == c {
        rows := rows + Project(Unwind(a, LookupMedicamentos(db.medicamentos, a.medicamentoId)));
      }
      i := i + 1;
    }
    assert all[..|all|] == all;
    r := Done(rows);
  }
}
