/**
 * The documents of the three collections, the models handed back to callers
 * (identifiers rendered as text), the request bodies, and the store that
 * holds the collections.
 */
module Documents {
  import opened Results
  import opened ObjectIds

  /** A document of the `medicamentos` collection. */
  datatype Medicamento = Medicamento(id: ObjectId, nombre: string, fabricante: string)

  /** A document of the `compuestos` collection. */
  datatype Compuesto = Compuesto(id: ObjectId, nombre: string)

  /**
   * A document of the `compuestos_por_medicamento` join collection: a
   * compound contained in a medication at a concentration, in a unit.
   * `concentracion` is a Python float; only its sign is ever examined.
   */
  datatype Asociacion = Asociacion(
    id: ObjectId,
    medicamentoId: ObjectId,
    compuestoId: ObjectId,
    concentracion: real,
    unidadMedida: string)

  /** The medication model returned to callers, `_id` rendered as text. */
  datatype MedicamentoView = MedicamentoView(id: string, nombre: string, fabricante: string)

  /** The compound model returned to callers, `_id` rendered as text. */
  datatype CompuestoView = CompuestoView(id: string, nombre: string)

  /** The association model returned to callers, `_id` and both foreign keys rendered as text. */
  datatype AsociacionView = AsociacionView(
    id: string,
    medicamentoId: string,
    compuestoId: string,
    concentracion: real,
    unidadMedida: string)

  /** A medication request body; `clientId` is an `_id` the client may have sent. */
  datatype MedicamentoInput = MedicamentoInput(clientId: Option<string>, nombre: string, fabricante: string)

  /** A compound request body; `clientId` is an `_id` the client may have sent. */
  datatype CompuestoInput = CompuestoInput(clientId: Option<string>, nombre: string)

  /** The dictionary handed to the association repository's `create`. */
  datatype AsociacionInput = AsociacionInput(
    clientId: Option<string>,
    medicamentoId: string,
    compuestoId: string,
    concentracion: real,
    unidadMedida: string)

  function MedicamentoIds(docs: seq<Medicamento>): seq<ObjectId> {
    seq(|docs|, i requires 0 <= i < |docs| => docs[i].id)
  }

  function CompuestoIds(docs: seq<Compuesto>): seq<ObjectId> {
    seq(|docs|, i requires 0 <= i < |docs| => docs[i].id)
  }

  function AsociacionIds(docs: seq<Asociacion>): seq<ObjectId> {
    seq(|docs|, i requires 0 <= i < |docs| => docs[i].id)
  }

  /** A stored document's identifier is among its collection's identifiers. */
  lemma MedicamentoIdIn(docs: seq<Medicamento>, d: Medicamento)
    requires d in docs
    ensures d.id in MedicamentoIds(docs)
  {
    var i :| 0 <= i < |docs| && docs[i] == d;
    assert MedicamentoIds(docs)[i] == d.id;
  }

  lemma CompuestoIdIn(docs: seq<Compuesto>, d: Compuesto)
    requires d in docs
    ensures d.id in CompuestoIds(docs)
  {
    var i :| 0 <= i < |docs| && docs[i] == d;
    assert CompuestoIds(docs)[i] == d.id;
  }

  /** `s` is the text of an identifier some stored medication has: what `get_by_id` finds. */
  predicate HasMedicamento(docs: seq<Medicamento>, s: string) {
    Parse(s).Some? && Parse(s).value in MedicamentoIds(docs)
  }

  /** `s` is the text of an identifier some stored compound has: what `get_by_id` finds. */
  predicate HasCompuesto(docs: seq<Compuesto>, s: string) {
    Parse(s).Some? && Parse(s).value in CompuestoIds(docs)
  }

  /**
   * Referential integrity of a join collection: every association names a
   * medication and a compound that exist.
   */
  predicate Linked(ms: seq<Medicamento>, cs: seq<Compuesto>, asocs: seq<Asociacion>) {
    forall a | a in asocs :: a.medicamentoId in MedicamentoIds(ms) && a.compuestoId in CompuestoIds(cs)
  }

  /**
   * The report a cascade delete returns: whether the entity was removed,
   * the id it was asked for (as given), and how many associations went with it.
   */
  datatype DeleteReport = DeleteReport(deleted: bool, id: string, relatedRecordsDeleted: nat)

  /** The document store: three collections, each in its natural (insertion) order. */
  class Database {
    var medicamentos: seq<Medicamento>
    var compuestos: seq<Compuesto>
    var asociaciones: seq<Asociacion>

    /** The store's unique index on `_id`, in every collection. */
    ghost predicate Valid()
      reads this
    {
      && Unique(MedicamentoIds(medicamentos))
      && Unique(CompuestoIds(compuestos))
      && Unique(AsociacionIds(asociaciones))
    }

    /** Referential integrity. The store does not enforce it; the services keep it. */
    ghost predicate Intact()
      reads this
    {
      Linked(medicamentos, compuestos, asociaciones)
    }

    constructor ()
      ensures Valid() && Intact()
      ensures medicamentos == [] && compuestos == [] && asociaciones == []
    {
      medicamentos, compuestos, asociaciones := [], [], [];
    }
  }
}
