/**
 * The repository of the `medicamentos` collection: CRUD over its documents
 * and the enriched lookup of the compounds a medication contains.
 */
module MedicamentoRepo {
  import opened Results
  import opened ObjectIds
  import opened Documents
  import Asoc = CompuestoPorMedicamentoRepo

  /** `str(_id)` applied to a stored medication. */
  function ViewOf(d: Medicamento): MedicamentoView {
    MedicamentoView(ToString(d.id), d.nombre, d.fabricante)
  }

  /** `get_all`: one model per stored medication, in collection order, `_id` as text. */
  method GetAll(db: Database) returns (r: seq<MedicamentoView>)
    ensures |r| == |db.medicamentos|
    ensures forall i | 0 <= i < |r| :: r[i] == ViewOf(db.medicamentos[i])
  {
    r := [];
    var i := 0;
    while i < |db.medicamentos|
      invariant 0 <= i <= |db.medicamentos|
      invariant |r| == i
      invariant forall j | 0 <= j < i :: r[j] == ViewOf(db.medicamentos[j])
    {
      r := r + [ViewOf(db.medicamentos[i])];
      i := i + 1;
    }
  }

  /**
   * `get_by_id`: absent, never an error, when `s` is not an identifier text
   * or no medication has that identifier.
   */
  function GetById(docs: seq<Medicamento>, s: string): (r: Option<MedicamentoView>)
    ensures r.Some? <==> Parse(s).Some? && Parse(s).value in MedicamentoIds(docs)
    ensures r.Some? ==> exists d | d in docs :: d.id == Parse(s).value && r.value == ViewOf(d)
  {
    match Parse(s)
    case None => None
    case Some(id) =>
      match IndexOf(MedicamentoIds(docs), id)
      case None => None
      case Some(i) =>
        assert docs[i] in docs && docs[i].id == MedicamentoIds(docs)[i];
        Some(ViewOf(docs[i]))
  }

  /** With unique identifiers, looking a medication up by its rendered id finds exactly it. */
  lemma GetByIdFinds(docs: seq<Medicamento>, i: nat)
    requires Unique(MedicamentoIds(docs)) && i < |docs|
    ensures GetById(docs, ToString(docs[i].id)) == Some(ViewOf(docs[i]))
  {
    ParseToString(docs[i].id);
    assert MedicamentoIds(docs)[i] == docs[i].id;
    IndexOfUnique(MedicamentoIds(docs), i);
  }

  /**
   * `create`: drops any client `_id`, inserts one medication under the
   * store's fresh `newId`, and returns it re-read by that id.
   */
  method Create(db: Database, input: MedicamentoInput, newId: ObjectId) returns (r: Option<MedicamentoView>)
    requires db.Valid()
    requires newId !in MedicamentoIds(db.medicamentos)
    modifies db
    ensures db.Valid()
    ensures db.compuestos == old(db.compuestos) && db.asociaciones == old(db.asociaciones)
    ensures db.medicamentos == old(db.medicamentos) + [Medicamento(newId, input.nombre, input.fabricante)]
    ensures r == Some(MedicamentoView(ToString(newId), input.nombre, input.fabricante))
    ensures r == GetById(db.medicamentos, r.value.id)
  {
    var stored := Medicamento(newId, input.nombre, input.fabricante);
    var ids := MedicamentoIds(db.medicamentos);
    UniqueAppend(ids, newId);
    assert MedicamentoIds(db.medicamentos + [stored]) == ids + [newId];
    db.medicamentos := db.medicamentos + [stored];
    GetByIdFinds(db.medicamentos, |db.medicamentos| - 1);
    r := GetById(db.medicamentos, ToString(newId));
  }

  /**
   * `update_one({_id: id}, {$set: ...})`: replaces `nombre` and `fabricante`
   * of the first medication with that identifier; everything else is kept.
   */
  function Overwrite(docs: seq<Medicamento>, id: ObjectId, input: MedicamentoInput): (r: seq<Medicamento>)
    ensures MedicamentoIds(r) == MedicamentoIds(docs)
    ensures forall i | 0 <= i < |docs| && docs[i].id != id :: r[i] == docs[i]
    ensures Unique(MedicamentoIds(docs)) ==>
      forall i | 0 <= i < |docs| && docs[i].id == id :: r[i] == Medicamento(id, input.nombre, input.fabricante)
  {
    match IndexOf(MedicamentoIds(docs), id)
    case None =>
      assert forall i | 0 <= i < |docs| :: docs[i].id == MedicamentoIds(docs)[i];
      docs
    case Some(k) =>
      var r := docs[k := Medicamento(id, input.nombre, input.fabricante)];
      assert MedicamentoIds(r) == MedicamentoIds(docs) by {
        assert forall i | 0 <= i < |docs| :: MedicamentoIds(r)[i] == MedicamentoIds(docs)[i];
      }
      assert forall i | 0 <= i < |docs| :: docs[i].id == MedicamentoIds(docs)[i];
      r
  }

  /**
   * `update`: raises on a malformed id; otherwise overwrites the fields of
   * the target and returns it re-read (absent when no medication has the id).
   */
  method Update(db: Database, s: string, input: MedicamentoInput) returns (r: Outcome<Option<MedicamentoView>>)
    requires db.Valid()
    modifies db
    ensures db.Valid()
    ensures db.compuestos == old(db.compuestos) && db.asociaciones == old(db.asociaciones)
    ensures Parse(s).None? ==> r == InvalidId && db.medicamentos == old(db.medicamentos)
    ensures Parse(s).Some? ==> db.medicamentos == Overwrite(old(db.medicamentos), Parse(s).value, input)
    ensures Parse(s).Some? && Parse(s).value !in MedicamentoIds(old(db.medicamentos)) ==> r == Done(None)
    ensures Parse(s).Some? && Parse(s).value in MedicamentoIds(old(db.medicamentos)) ==>
      r == Done(Some(MedicamentoView(ToString(Parse(s).value), input.nombre, input.fabricante)))
  {
    var id := Parse(s);
    if id.None? {
      return InvalidId;
    }
    db.medicamentos := Overwrite(db.medicamentos, id.value, input);
    r := Done(GetById(db.medicamentos, s));
  }

  /** `delete_one({_id: id})`: removes the first medication with that identifier, if any. */
  function Without(docs: seq<Medicamento>, id: ObjectId): (r: seq<Medicamento>)
    ensures |r| == if id in MedicamentoIds(docs) then |docs| - 1 else |docs|
    ensures forall d | d in r :: d in docs
    ensures forall d | d in docs && d.id != id :: d in r
    ensures Unique(MedicamentoIds(docs)) ==> Unique(MedicamentoIds(r)) && id !in MedicamentoIds(r)
  {
    match IndexOf(MedicamentoIds(docs), id)
    case None => docs
    case Some(k) =>
      var r := docs[..k] + docs[k + 1..];
      var ids := MedicamentoIds(docs);
      assert MedicamentoIds(r) == ids[..k] + ids[k + 1..];
      if Unique(ids) then
        UniqueRemove(ids, k);
        r
      else r
  }

  /** `delete`: raises on a malformed id; otherwise reports whether a medication was removed. */
  method Delete(db: Database, s: string) returns (r: Outcome<bool>)
    requires db.Valid()
    modifies db
    ensures db.Valid()
    ensures db.compuestos == old(db.compuestos) && db.asociaciones == old(db.asociaciones)
    ensures Parse(s).None? ==> r == InvalidId && db.medicamentos == old(db.medicamentos)
    ensures Parse(s).Some? ==>
      && r == Done(Parse(s).value in MedicamentoIds(old(db.medicamentos)))
      && db.medicamentos == Without(old(db.medicamentos), Parse(s).value)
  {
    var id := Parse(s);
    if id.None? {
      return InvalidId;
    }
    var before := |db.medicamentos|;
    db.medicamentos := Without(db.medicamentos, id.value);
    r := Done(|db.medicamentos| < before);
  }

  /** A row of the enriched lookup: the compound's fields plus the association's measurement. */
  datatype CompuestoRow = CompuestoRow(id: string, nombre: string, concentracion: real, unidadMedida: string)

  /** `$lookup` from `compuestos`: every compound whose `_id` equals the association's `compuesto_id`. */
  function LookupCompuestos(cs: seq<Compuesto>, id: ObjectId): (r: seq<Compuesto>)
    ensures |r| <= |cs|
    ensures forall c | c in r :: c in cs && c.id == id
  {
    if cs == [] then []
    else (if cs[0].id == id then [cs[0]] else []) + LookupCompuestos(cs[1..], id)
  }

  /** `$unwind`: one pair per looked-up compound; none when the lookup found nothing. */
  function Unwind(a: Asociacion, found: seq<Compuesto>): (r: seq<(Asociacion, Compuesto)>)
    ensures |r| == |found|
  {
    seq(|found|, i requires 0 <= i < |found| => (a, found[i]))
  }

  /** `$lookup` followed by `$unwind` over a sequence of associations: the inner join. */
  function InnerJoin(s: seq<Asociacion>, cs: seq<Compuesto>): seq<(Asociacion, Compuesto)> {
    if s == [] then []
    else Unwind(s[0], LookupCompuestos(cs, s[0].compuestoId)) + InnerJoin(s[1..], cs)
  }

  /** `$project`: compound id as text, compound name, association concentration and unit. */
  function RowOf(a: Asociacion, c: Compuesto): CompuestoRow {
    CompuestoRow(ToString(c.id), c.nombre, a.concentracion, a.unidadMedida)
  }

  /** `$project` over the joined pairs: one row per pair, in order. */
  function Project(j: seq<(Asociacion, Compuesto)>): (r: seq<CompuestoRow>)
    ensures |r| == |j|
  {
    seq(|j|, i requires 0 <= i < |j| => RowOf(j[i].0, j[i].1))
  }

  /** The aggregation pipeline: `$match` on `medicamento_id`, `$lookup`, `$unwind`, `$project`. */
  function CompuestosOf(asocs: seq<Asociacion>, cs: seq<Compuesto>, m: ObjectId): seq<CompuestoRow> {
    Project(InnerJoin(Asoc.Referencing(asocs, Asoc.MedicamentoKey, m), cs))
  }

  lemma {:induction false} LookupMembers(cs: seq<Compuesto>, id: ObjectId)
    ensures forall c :: c in LookupCompuestos(cs, id) <==> c in cs && c.id == id
  {
    if cs != [] {
      LookupMembers(cs[1..], id);
      assert cs == [cs[0]] + cs[1..];
    }
  }

  /** Under the unique index on `_id`, the lookup finds one compound when it exists and none otherwise. */
  lemma {:induction false} LookupUnique(cs: seq<Compuesto>, id: ObjectId)
    requires Unique(CompuestoIds(cs))
    ensures |LookupCompuestos(cs, id)| == if id in CompuestoIds(cs) then 1 else 0
  {
    if cs != [] {
      var tail := cs[1..];
      assert CompuestoIds(tail) == CompuestoIds(cs)[1..];
      LookupUnique(tail, id);
      assert CompuestoIds(cs)[0] == cs[0].id;
      assert id in CompuestoIds(cs) <==> cs[0].id == id || id in CompuestoIds(tail);
    }
  }

  /** A joined pair links an association to a compound it names. */
  lemma {:induction false} InnerJoinMembers(s: seq<Asociacion>, cs: seq<Compuesto>)
    ensures forall p: (Asociacion, Compuesto) :: p in InnerJoin(s, cs) <==> p.0 in s && p.1 in cs && p.1.id == p.0.compuestoId
  {
    if s != [] {
      InnerJoinMembers(s[1..], cs);
      LookupMembers(cs, s[0].compuestoId);
      assert s == [s[0]] + s[1..];
      var found := LookupCompuestos(cs, s[0].compuestoId);
      assert forall p: (Asociacion, Compuesto) :: p in Unwind(s[0], found) <==> p.0 == s[0] && p.1 in found by {
        forall p: (Asociacion, Compuesto) | p.0 == s[0] && p.1 in found
          ensures p in Unwind(s[0], found)
        {
          var i :| 0 <= i < |found| && found[i] == p.1;
          assert Unwind(s[0], found)[i] == p;
        }
      }
    }
  }

  lemma {:induction false} InnerJoinAppend(s: seq<Asociacion>, t: seq<Asociacion>, cs: seq<Compuesto>)
    ensures InnerJoin(s + t, cs) == InnerJoin(s, cs) + InnerJoin(t, cs)
  {
    if s == [] {
      assert s + t == t;
    } else {
      assert (s + t)[0] == s[0];
      assert (s + t)[1..] == s[1..] + t;
      InnerJoinAppend(s[1..], t, cs);
    }
  }

  /** The associations whose compound exists: the ones `$unwind` keeps. */
  function Resolvable(s: seq<Asociacion>, cs: seq<Compuesto>): (r: seq<Asociacion>)
    ensures |r| <= |s|
    ensures forall a | a in r :: a in s && a.compuestoId in CompuestoIds(cs)
  {
    if s == [] then []
    else (if s[0].compuestoId in CompuestoIds(cs) then [s[0]] else []) + Resolvable(s[1..], cs)
  }

  /** Under the unique index on `_id`, each resolvable association contributes one pair and every other none. */
  lemma {:induction false} InnerJoinCount(s: seq<Asociacion>, cs: seq<Compuesto>)
    requires Unique(CompuestoIds(cs))
    ensures |InnerJoin(s, cs)| == |Resolvable(s, cs)|
  {
    if s != [] {
      LookupUnique(cs, s[0].compuestoId);
      InnerJoinCount(s[1..], cs);
    }
  }

  /** With no dangling reference, every association is resolvable. */
  lemma {:induction false} ResolvableAll(s: seq<Asociacion>, cs: seq<Compuesto>)
    requires forall a | a in s :: a.compuestoId in CompuestoIds(cs)
    ensures Resolvable(s, cs) == s
  {
    if s != [] {
      assert s[0] in s;
      assert forall a | a in s[1..] :: a in s;
      ResolvableAll(s[1..], cs);
      assert s == [s[0]] + s[1..];
    }
  }

  /**
   * The rows of the lookup are exactly the projections of (association,
   * compound) pairs where the association belongs to `m` and names the compound.
   */
  lemma JoinMembers(asocs: seq<Asociacion>, cs: seq<Compuesto>, m: ObjectId, row: CompuestoRow)
    ensures row in CompuestosOf(asocs, cs, m) <==>
      exists a, c | a in asocs && c in cs :: a.medicamentoId == m && c.id == a.compuestoId && row == RowOf(a, c)
  {
    var matched := Asoc.Referencing(asocs, Asoc.MedicamentoKey, m);
    var j := InnerJoin(matched, cs);
    Asoc.ReferencingMembers(asocs, Asoc.MedicamentoKey, m);
    InnerJoinMembers(matched, cs);
    if row in Project(j) {
      var i :| 0 <= i < |j| && Project(j)[i] == row;
      assert j[i] in j;
    }
    if exists a, c | a in asocs && c in cs :: a.medicamentoId == m && c.id == a.compuestoId && row == RowOf(a, c) {
      var a, c :| a in asocs && c in cs && a.medicamentoId == m && c.id == a.compuestoId && row == RowOf(a, c);
      assert (a, c) in j;
      var i :| 0 <= i < |j| && j[i] == (a, c);
      assert Project(j)[i] == row;
    }
  }

  /** A medication no association references has no compounds. */
  lemma JoinEmptyWithoutReference(asocs: seq<Asociacion>, cs: seq<Compuesto>, m: ObjectId)
    requires forall a | a in asocs :: a.medicamentoId != m
    ensures CompuestosOf(asocs, cs, m) == []
  {
    Asoc.SurvivingUntouched(asocs, Asoc.MedicamentoKey, m);
    Asoc.DeleteManyPartition(asocs, Asoc.MedicamentoKey, m);
  }

  /**
   * The lookup yields one row per association of `m` whose compound
   * exists; an association whose compound is missing yields none.
   */
  lemma JoinRowCount(asocs: seq<Asociacion>, cs: seq<Compuesto>, m: ObjectId)
    requires Unique(CompuestoIds(cs))
    ensures |CompuestosOf(asocs, cs, m)| == |Resolvable(Asoc.Referencing(asocs, Asoc.MedicamentoKey, m), cs)|
  {
    InnerJoinCount(Asoc.Referencing(asocs, Asoc.MedicamentoKey, m), cs);
  }

  /**
   * With unique compound ids and no dangling reference from `m`'s
   * associations, the lookup yields exactly one row per association of `m`.
   */
  lemma JoinOneRowPerAssociation(asocs: seq<Asociacion>, cs: seq<Compuesto>, m: ObjectId)
    requires Unique(CompuestoIds(cs))
    requires forall a | a in asocs && a.medicamentoId == m :: a.compuestoId in CompuestoIds(cs)
    ensures |CompuestosOf(asocs, cs, m)| == |Asoc.Referencing(asocs, Asoc.MedicamentoKey, m)|
  {
    Asoc.ReferencingMembers(asocs, Asoc.MedicamentoKey, m);
    ResolvableAll(Asoc.Referencing(asocs, Asoc.MedicamentoKey, m), cs);
    JoinRowCount(asocs, cs, m);
  }

  /** The pipeline streamed one association at a time. */
  lemma CompuestosOfSnoc(s: seq<Asociacion>, a: Asociacion, cs: seq<Compuesto>, m: ObjectId)
    ensures CompuestosOf(s + [a], cs, m) ==
      CompuestosOf(s, cs, m) + (if a.medicamentoId == m then Project(Unwind(a, LookupCompuestos(cs, a.compuestoId))) else [])
  {
    var k := Asoc.MedicamentoKey;
    Asoc.ReferencingAppend(s, [a], k, m);
    assert [a][1..] == [];
    var one := Asoc.Referencing([a], k, m);
    InnerJoinAppend(Asoc.Referencing(s, k, m), one, cs);
    if a.medicamentoId == m {
      assert one == [a];
      assert InnerJoin(one, cs) == Unwind(a, LookupCompuestos(cs, a.compuestoId)) + InnerJoin([], cs);
    } else {
      assert one == [];
    }
    var x := InnerJoin(Asoc.Referencing(s, k, m), cs);
    var y := InnerJoin(one, cs);
    ProjectAppend(x, y);
  }

  /** `$project` works row by row, so it distributes over concatenation. */
  lemma ProjectAppend(x: seq<(Asociacion, Compuesto)>, y: seq<(Asociacion, Compuesto)>)
    ensures Project(x + y) == Project(x) + Project(y)
  {
    assert forall i | 0 <= i < |x + y| :: Project(x + y)[i] == (Project(x) + Project(y))[i];
  }

  /**
   * `get_compuestos_by_medicamento_id`: raises on a malformed id; otherwise
   * runs the pipeline over the join collection and collects its rows.
   */
  method GetCompuestosByMedicamentoId(db: Database, s: string) returns (r: Outcome<seq<CompuestoRow>>)
    ensures Parse(s).None? ==> r == InvalidId
    ensures Parse(s).Some? ==> r == Done(CompuestosOf(db.asociaciones, db.compuestos, Parse(s).value))
  {
    var id := Parse(s);
    if id.None? {
      return InvalidId;
    }
    var m := id.value;
    var all := db.asociaciones;
    var rows: seq<CompuestoRow> := [];
    var i := 0;
    while i < |all|
      invariant 0 <= i <= |all|
      invariant rows == CompuestosOf(all[..i], db.compuestos, m)
    {
      var a := all[i];
      assert all[..i + 1] == all[..i] + [a];
      CompuestosOfSnoc(all[..i], a, db.compuestos, m);
      if a.medicamentoId == m {
        rows := rows + Project(Unwind(a, LookupCompuestos(db.compuestos, a.compuestoId)));
      }
      i := i + 1;
    }
    assert all[..|all|] == all;
    r := Done(rows);
  }
}
