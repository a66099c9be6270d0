/**
 * The repository of the `compuestos_por_medicamento` join collection:
 * listing, lookup by id, creation, and the cascade deletes by either
 * foreign key.
 */
module CompuestoPorMedicamentoRepo {
  import opened Results
  import opened ObjectIds
  import opened Documents

  /** The foreign key a `delete_many` filter (or an aggregation's `$match`) names. */
  datatype ForeignKey = MedicamentoKey | CompuestoKey

  function KeyOf(a: Asociacion, k: ForeignKey): ObjectId {
    match k
    case MedicamentoKey => a.medicamentoId
    case CompuestoKey => a.compuestoId
  }

  /** The associations the filter `{k: id}` selects, in collection order. */
  function Referencing(s: seq<Asociacion>, k: ForeignKey, id: ObjectId): (r: seq<Asociacion>)
    ensures |r| <= |s|
  {
    if s == [] then []
    else (if KeyOf(s[0], k) == id then [s[0]] else []) + Referencing(s[1..], k, id)
  }

  /** The associations that `delete_many({k: id})` leaves in place, in collection order. */
  function Surviving(s: seq<Asociacion>, k: ForeignKey, id: ObjectId): (r: seq<Asociacion>)
    ensures |r| <= |s|
  {
    if s == [] then []
    else (if KeyOf(s[0], k) != id then [s[0]] else []) + Surviving(s[1..], k, id)
  }

  /** The filter selects exactly the records whose key is `id`. */
  lemma {:induction false} ReferencingMembers(s: seq<Asociacion>, k: ForeignKey, id: ObjectId)
    ensures forall a :: a in Referencing(s, k, id) <==> a in s && KeyOf(a, k) == id
  {
    if s != [] {
      ReferencingMembers(s[1..], k, id);
      assert s == [s[0]] + s[1..];
    }
  }

  /**
   * A cascade delete removes exactly the records whose key is `id`: no
   * record referencing `id` remains, and every other record does.
   */
  lemma {:induction false} SurvivingMembers(s: seq<Asociacion>, k: ForeignKey, id: ObjectId)
    ensures forall a :: a in Surviving(s, k, id) <==> a in s && KeyOf(a, k) != id
  {
    if s != [] {
      SurvivingMembers(s[1..], k, id);
      assert s == [s[0]] + s[1..];
    }
  }

  /**
   * A cascade delete splits the collection: what it removes and what it
   * keeps make up the old collection exactly, so the count it reports is
   * the number of matching records.
   */
  lemma {:induction false} DeleteManyPartition(s: seq<Asociacion>, k: ForeignKey, id: ObjectId)
    ensures multiset(Referencing(s, k, id)) + multiset(Surviving(s, k, id)) == multiset(s)
    ensures |Referencing(s, k, id)| + |Surviving(s, k, id)| == |s|
  {
    if s != [] {
      DeleteManyPartition(s[1..], k, id);
      assert s == [s[0]] + s[1..];
    }
  }

  /** Selecting distributes over concatenation: order is kept. */
  lemma {:induction false} ReferencingAppend(s: seq<Asociacion>, t: seq<Asociacion>, k: ForeignKey, id: ObjectId)
    ensures Referencing(s + t, k, id) == Referencing(s, k, id) + Referencing(t, k, id)
  {
    if s != [] {
      var head := if KeyOf(s[0], k) == id then [s[0]] else [];
      assert (s + t)[0] == s[0];
      assert (s + t)[1..] == s[1..] + t;
      ReferencingAppend(s[1..], t, k, id);
      calc {
        Referencing(s + t, k, id);
        head + Referencing(s[1..] + t, k, id);
        head + (Referencing(s[1..], k, id) + Referencing(t, k, id));
        (head + Referencing(s[1..], k, id)) + Referencing(t, k, id);
      }
    } else {
      assert s + t == t;
    }
  }

  /** Deleting distributes over concatenation: the survivors keep their order. */
  lemma {:induction false} SurvivingAppend(s: seq<Asociacion>, t: seq<Asociacion>, k: ForeignKey, id: ObjectId)
    ensures Surviving(s + t, k, id) == Surviving(s, k, id) + Surviving(t, k, id)
  {
    if s != [] {
      var head := if KeyOf(s[0], k) != id then [s[0]] else [];
      assert (s + t)[0] == s[0];
      assert (s + t)[1..] == s[1..] + t;
      SurvivingAppend(s[1..], t, k, id);
      calc {
        Surviving(s + t, k, id);
        head + Surviving(s[1..] + t, k, id);
        head + (Surviving(s[1..], k, id) + Surviving(t, k, id));
        (head + Surviving(s[1..], k, id)) + Surviving(t, k, id);
      }
    } else {
      assert s + t == t;
    }
  }

  /** A record that does not match is never touched. */
  lemma {:induction false} SurvivingUntouched(s: seq<Asociacion>, k: ForeignKey, id: ObjectId)
    requires forall a | a in s :: KeyOf(a, k) != id
    ensures Surviving(s, k, id) == s
  {
    if s != [] {
      SurvivingUntouched(s[1..], k, id);
      assert s == [s[0]] + s[1..];
    }
  }

  /** A second cascade delete on the same id removes nothing and counts zero. */
  lemma DeleteManyIdempotent(s: seq<Asociacion>, k: ForeignKey, id: ObjectId)
    ensures Surviving(Surviving(s, k, id), k, id) == Surviving(s, k, id)
    ensures |Referencing(Surviving(s, k, id), k, id)| == 0
  {
    SurvivingMembers(s, k, id);
    SurvivingUntouched(Surviving(s, k, id), k, id);
    DeleteManyPartition(Surviving(s, k, id), k, id);
  }

  /** Deleting records keeps the remaining identifiers unique. */
  lemma {:induction false} SurvivingUnique(s: seq<Asociacion>, k: ForeignKey, id: ObjectId)
    requires Unique(AsociacionIds(s))
    ensures Unique(AsociacionIds(Surviving(s, k, id)))
  {
    if s != [] {
      var tail := s[1..];
      assert AsociacionIds(tail) == AsociacionIds(s)[1..];
      SurvivingUnique(tail, k, id);
      var rest := Surviving(tail, k, id);
      SurvivingMembers(tail, k, id);
      if KeyOf(s[0], k) != id {
        assert s[0].id !in AsociacionIds(rest) by {
          forall j | 0 <= j < |rest|
            ensures AsociacionIds(rest)[j] != s[0].id
          {
            assert rest[j] in tail;
            var p :| 0 <= p < |tail| && tail[p] == rest[j];
            assert AsociacionIds(s)[p + 1] == rest[j].id;
            assert AsociacionIds(s)[0] == s[0].id;
            assert AsociacionIds(rest)[j] == rest[j].id;
          }
        }
        UniqueCons(s[0].id, AsociacionIds(rest));
        assert AsociacionIds([s[0]] + rest) == [s[0].id] + AsociacionIds(rest);
      } else {
        assert Surviving(s, k, id) == rest;
      }
    }
  }

  /** `str(...)` applied to `_id` and both foreign keys of a stored association. */
  function ViewOf(a: Asociacion): AsociacionView {
    AsociacionView(ToString(a.id), ToString(a.medicamentoId), ToString(a.compuestoId), a.concentracion, a.unidadMedida)
  }

  /** The keys of an association document as the repository stores it. */
  const StoredKeys: set<string> := {"_id", "medicamento_id", "compuesto_id", "concentracion", "unidad_medida"}

  /** The required fields of the association model as declared: `unidad`, a key no stored document has. */
  const DeclaredFields: set<string> := {"medicamento_id", "compuesto_id", "concentracion", "unidad"}

  /** The required fields of the association model under the name everything else uses. */
  const IntendedFields: set<string> := {"medicamento_id", "compuesto_id", "concentracion", "unidad_medida"}

  /** Building the association model from a document: it fails when a required field is missing. */
  function Construct(a: Asociacion, required: set<string>): Option<AsociacionView> {
    if required <= StoredKeys then Some(ViewOf(a)) else None
  }

  /** `get_by_id` against a model requiring `required`: every failure is caught and yields absent. */
  function FindWith(docs: seq<Asociacion>, s: string, required: set<string>): (r: Option<AsociacionView>)
    ensures !(required <= StoredKeys) ==> r == None
    ensures required <= StoredKeys ==> (r.Some? <==> Parse(s).Some? && Parse(s).value in AsociacionIds(docs))
  {
    match Parse(s)
    case None => None
    case Some(id) =>
      match IndexOf(AsociacionIds(docs), id)
      case None => None
      case Some(i) => Construct(docs[i], required)
  }

  /** `get_by_id`, with the model's unit field named as it is stored. */
  function GetById(docs: seq<Asociacion>, s: string): (r: Option<AsociacionView>)
    ensures r.Some? <==> Parse(s).Some? && Parse(s).value in AsociacionIds(docs)
    ensures r.Some? ==> exists a | a in docs :: a.id == Parse(s).value && r.value == ViewOf(a)
  {
    var r := FindWith(docs, s, IntendedFields);
    assert IntendedFields <= StoredKeys;
    if r.Some? then
      var i := IndexOf(AsociacionIds(docs), Parse(s).value).value;
      assert docs[i] in docs && docs[i].id == AsociacionIds(docs)[i];
      r
    else r
  }

  /** `get_by_id` as written: building the model always fails, and the handler turns that into absent. */
  function GetByIdAsWritten(docs: seq<Asociacion>, s: string): (r: Option<AsociacionView>)
    ensures r == None
  {
    assert "unidad" in DeclaredFields && "unidad" !in StoredKeys;
    FindWith(docs, s, DeclaredFields)
  }

  /**
   * The discrepancy: right after a record is inserted, the re-read that
   * `create` returns finds it under the intended model and finds nothing as written.
   */
  lemma CreateReReadAsWritten(docs: seq<Asociacion>, a: Asociacion)
    requires a.id !in AsociacionIds(docs)
    ensures GetById(docs + [a], ToString(a.id)) == Some(ViewOf(a))
    ensures GetByIdAsWritten(docs + [a], ToString(a.id)) == None
  {
    ReReadInserted(docs, a);
  }

  /** Re-reading a freshly inserted record by its rendered id finds that record. */
  lemma ReReadInserted(docs: seq<Asociacion>, a: Asociacion)
    requires a.id !in AsociacionIds(docs)
    ensures GetById(docs + [a], ToString(a.id)) == Some(ViewOf(a))
  {
    ParseToString(a.id);
    var ids := AsociacionIds(docs + [a]);
    assert ids == AsociacionIds(docs) + [a.id];
    var i := IndexOf(ids, a.id).value;
    assert i == |docs|;
  }

  /** What `get_all` as written yields: its list, or the `ValidationError` that escapes it. */
  datatype Listing = Listed(views: seq<AsociacionView>) | RaisesValidationError

  /** `get_all` as written: building the model fails on the first document and the error escapes. */
  function GetAllAsWritten(docs: seq<Asociacion>): (r: Listing)
    ensures r.RaisesValidationError? <==> docs != []
    ensures r.Listed? ==> r.views == []
  {
    assert "unidad" in DeclaredFields && "unidad" !in StoredKeys;
    assert docs != [] ==> Construct(docs[0], DeclaredFields).None?;
    if forall i | 0 <= i < |docs| :: Construct(docs[i], DeclaredFields).Some? then
      Listed(seq(|docs|, i requires 0 <= i < |docs| => ViewOf(docs[i])))
    else RaisesValidationError
  }

  /** `get_all`: one model per stored record, in collection order, identifiers as text. */
  method GetAll(db: Database) returns (r: seq<AsociacionView>)
    ensures |r| == |db.asociaciones|
    ensures forall i | 0 <= i < |r| :: r[i] == ViewOf(db.asociaciones[i])
  {
    r := [];
    var i := 0;
    while i < |db.asociaciones|
      invariant 0 <= i <= |db.asociaciones|
      invariant |r| == i
      invariant forall j | 0 <= j < i :: r[j] == ViewOf(db.asociaciones[j])
    {
      r := r + [ViewOf(db.asociaciones[i])];
      i := i + 1;
    }
  }

  /**
   * `create`: converts both foreign keys (raising on a malformed one), drops
   * any client `_id`, inserts one record under the store's fresh `newId`,
   * and returns the record re-read by that id. No uniqueness is enforced on
   * the (medicamento, compuesto) pair.
   */
  method Create(db: Database, input: AsociacionInput, newId: ObjectId) returns (r: Outcome<Option<AsociacionView>>)
    requires db.Valid()
    requires newId !in AsociacionIds(db.asociaciones)
    modifies db
    ensures db.Valid()
    ensures db.medicamentos == old(db.medicamentos) && db.compuestos == old(db.compuestos)
    ensures Parse(input.medicamentoId).None? || Parse(input.compuestoId).None? ==>
      r == InvalidId && db.asociaciones == old(db.asociaciones)
    ensures Parse(input.medicamentoId).Some? && Parse(input.compuestoId).Some? ==>
      var stored := Asociacion(newId, Parse(input.medicamentoId).value, Parse(input.compuestoId).value,
                               input.concentracion, input.unidadMedida);
      && db.asociaciones == old(db.asociaciones) + [stored]
      && r == Done(Some(ViewOf(stored)))
  {
    var m := Parse(input.medicamentoId);
    if m.None? {
      return InvalidId;
    }
    var c := Parse(input.compuestoId);
    if c.None? {
      return InvalidId;
    }
    var stored := Asociacion(newId, m.value, c.value, input.concentracion, input.unidadMedida);
    ReReadInserted(db.asociaciones, stored);
    UniqueAppend(AsociacionIds(db.asociaciones), newId);
    assert AsociacionIds(db.asociaciones + [stored]) == AsociacionIds(db.asociaciones) + [newId];
    db.asociaciones := db.asociaciones + [stored];
    r := Done(GetById(db.asociaciones, ToString(newId)));
  }

  /** `delete_many({k: id})`: removes every matching record and counts them. */
  method DeleteMany(db: Database, k: ForeignKey, id: ObjectId) returns (count: nat)
    requires db.Valid()
    modifies db
    ensures db.Valid()
    ensures db.medicamentos == old(db.medicamentos) && db.compuestos == old(db.compuestos)
    ensures db.asociaciones == Surviving(old(db.asociaciones), k, id)
    ensures count == |Referencing(old(db.asociaciones), k, id)|
  {
    var kept;
    kept, count := Scan(db.asociaciones, k, id);
    SurvivingUnique(db.asociaciones, k, id);
    db.asociaciones := kept;
  }

  /** The pass `delete_many` makes over the collection: what it keeps and how many it removes. */
  method Scan(all: seq<Asociacion>, k: ForeignKey, id: ObjectId) returns (kept: seq<Asociacion>, count: nat)
    ensures kept == Surviving(all, k, id)
    ensures count == |Referencing(all, k, id)|
  {
    kept := [];
    count := 0;
    var i := 0;
    while i < |all|
      invariant 0 <= i <= |all|
      invariant kept == Surviving(all[..i], k, id)
      invariant count == |Referencing(all[..i], k, id)|
    {
      var a := all[i];
      assert all[..i + 1] == all[..i] + [a];
      SurvivingAppend(all[..i], [a], k, id);
      ReferencingAppend(all[..i], [a], k, id);
      assert [a][1..] == [];
      if KeyOf(a, k) == id {
        count := count + 1;
      } else {
        kept := kept + [a];
      }
      i := i + 1;
    }
    assert all[..|all|] == all;
  }

  /** `delete_by_medicamento_id`: raises on a malformed id, else deletes by `medicamento_id` and counts. */
  method DeleteByMedicamentoId(db: Database, medicamentoId: string) returns (r: Outcome<nat>)
    requires db.Valid()
    modifies db
    ensures db.Valid()
    ensures db.medicamentos == old(db.medicamentos) && db.compuestos == old(db.compuestos)
    ensures Parse(medicamentoId).None? ==> r == InvalidId && db.asociaciones == old(db.asociaciones)
    ensures Parse(medicamentoId).Some? ==>
      && db.asociaciones == Surviving(old(db.asociaciones), MedicamentoKey, Parse(medicamentoId).value)
      && r == Done(|Referencing(old(db.asociaciones), MedicamentoKey, Parse(medicamentoId).value)|)
  {
    var m := Parse(medicamentoId);
    if m.None? {
      return InvalidId;
    }
    var count := DeleteMany(db, MedicamentoKey, m.value);
    r := Done(count);
  }

  /** `delete_by_compuesto_id`: raises on a malformed id, else deletes by `compuesto_id` and counts. */
  method DeleteByCompuestoId(db: Database, compuestoId: string) returns (r: Outcome<nat>)
    requires db.Valid()
    modifies db
    ensures db.Valid()
    ensures db.medicamentos == old(db.medicamentos) && db.compuestos == old(db.compuestos)
    ensures Parse(compuestoId).None? ==> r == InvalidId && db.asociaciones == old(db.asociaciones)
    ensures Parse(compuestoId).Some? ==>
      && db.asociaciones == Surviving(old(db.asociaciones), CompuestoKey, Parse(compuestoId).value)
      && r == Done(|Referencing(old(db.asociaciones), CompuestoKey, Parse(compuestoId).value)|)
  {
    var c := Parse(compuestoId);
    if c.None? {
      return InvalidId;
    }
    var count := DeleteMany(db, CompuestoKey, c.value);
    r := Done(count);
  }
}
