/** The Produit service over its document store.

    The store is a finite map from a document id to the stored Produit; the
    repository's `save` writes a document under its id (inserting or
    replacing), `findById` looks one up, `deleteById` removes one and
    `count` counts them. Every service operation is one of these map
    operations, except `partialUpdate`, which merges a patch into the stored
    record field by field. */
module ProduitService {
  import opened Wrappers

  /** The price is a floating-point value that the service only copies, so it
      is kept opaque: nothing but equality is used. */
  type Price(==)

  /** A Produit document. `id` is absent on a Produit that has not been
      persisted yet; the other fields are optional (nullable) attributes. */
  datatype Produit = Produit(
    id: Option<string>,
    description: Option<string>,
    nom: Option<string>,
    prix: Option<Price>)

  type Store = map<string, Produit>

  /** The result of a service call: the store afterwards and what the call
      returned to its caller. */
  datatype Reply<T> = Reply(store: Store, value: T)

  /** A well-formed store holds every document under its own id. */
  ghost predicate Wf(store: Store) {
    forall k :: k in store ==> store[k].id == Some(k)
  }

  /** Every record except the one stored under `id` is untouched, and no
      record appears or disappears. */
  ghost predicate OnlyChanged(before: Store, after: Store, id: string) {
    && before.Keys == after.Keys
    && forall k :: k in before && k != id ==> after[k] == before[k]
  }

  /** The repository's write: stores `p` under its id. */
  function Put(store: Store, p: Produit): (r: Store)
    requires p.id.Some?
    ensures p.id.value in r && r[p.id.value] == p
    ensures r.Keys == store.Keys + {p.id.value}
    ensures forall k :: k in store && k != p.id.value ==> r[k] == store[k]
  {
    store[p.id.value := p]
  }

  /** `save`: persists `p`. A Produit without an id receives `generatedId`,
      the fresh id the database chooses on insert. The persisted Produit is
      returned. */
  function Save(store: Store, p: Produit, generatedId: string): (r: Reply<Produit>)
    requires p.id.None? ==> generatedId !in store
    ensures r.value.id.Some?
    ensures p.id.Some? ==> r.value == p
    ensures p.id.None? ==> r.value == p.(id := Some(generatedId))
    ensures r.value.id.value in r.store && r.store[r.value.id.value] == r.value
    ensures r.store.Keys == store.Keys + {r.value.id.value}
    ensures forall k :: k in store && k != r.value.id.value ==> r.store[k] == store[k]
    ensures p.id.None? ==> |r.store| == |store| + 1
    ensures Wf(store) ==> Wf(r.store)
  {
    var saved := if p.id.Some? then p else p.(id := Some(generatedId));
    Reply(Put(store, saved), saved)
  }

  /** `update`: persists `p`, which already carries an id; it is the same
      repository write as `save`. */
  function Update(store: Store, p: Produit): (r: Reply<Produit>)
    requires p.id.Some?
    ensures r.value == p
    ensures p.id.value in r.store && r.store[p.id.value] == p
    ensures r.store.Keys == store.Keys + {p.id.value}
    ensures forall k :: k in store && k != p.id.value ==> r.store[k] == store[k]
    ensures p.id.value in store ==> OnlyChanged(store, r.store, p.id.value)
    ensures p.id.value in store ==> |r.store| == |store|
    ensures Wf(store) ==> Wf(r.store)
  {
    Reply(Put(store, p), p)
  }

  /** `findOne`: the document stored under `id`, if any. */
  function FindOne(store: Store, id: string): (r: Option<Produit>)
    ensures r.Some? <==> id in store
    ensures r.Some? ==> r.value == store[id]
  {
    if id in store then Some(store[id]) else None
  }

  /** `delete`: removes the document stored under `id`; removing an id that
      is not stored changes nothing. */
  function Delete(store: Store, id: string): (r: Store)
    ensures id !in r
    ensures r.Keys == store.Keys - {id}
    ensures forall k :: k in r ==> r[k] == store[k]
    ensures Wf(store) ==> Wf(r)
  {
    store - {id}
  }

  /** `countAll`: the number of stored documents. */
  function CountAll(store: Store): (n: nat)
    ensures n == |store.Keys|
  {
    |store|
  }

  /** A nullable field of the patch overwrites the stored one only when it is
      present. */
  function Overlay<T>(patched: Option<T>, stored: Option<T>): (r: Option<T>) {
    if patched.Some? then patched else stored
  }

  /** The merge `partialUpdate` applies to the stored Produit: each of
      `description`, `nom` and `prix` takes the patch's value when that value
      is not null and keeps the stored value otherwise; the id is the stored
      one. */
  function Merge(existing: Produit, patch: Produit): (r: Produit)
    ensures r.id == existing.id
    ensures patch.description.Some? ==> r.description == patch.description
    ensures patch.description.None? ==> r.description == existing.description
    ensures patch.nom.Some? ==> r.nom == patch.nom
    ensures patch.nom.None? ==> r.nom == existing.nom
    ensures patch.prix.Some? ==> r.prix == patch.prix
    ensures patch.prix.None? ==> r.prix == existing.prix
  {
    existing.(
      description := Overlay(patch.description, existing.description),
      nom := Overlay(patch.nom, existing.nom),
      prix := Overlay(patch.prix, existing.prix))
  }

  /** `partialUpdate`: looks up the document with the patch's id; when there
      is one, merges the patch into it, saves the result and returns it;
      otherwise returns nothing and writes nothing. */
  function PartialUpdate(store: Store, patch: Produit): (r: Reply<Option<Produit>>)
    requires Wf(store)
    requires patch.id.Some?
    ensures patch.id.value !in store ==> r.value.None? && r.store == store
    ensures patch.id.value in store ==>
      && r.value == Some(Merge(store[patch.id.value], patch))
      && r.store == store[patch.id.value := r.value.value]
    ensures Wf(r.store)
  {
    match FindOne(store, patch.id.value)
    case None => Reply(store, None)
    case Some(existing) =>
      var merged := Merge(existing, patch);
      Reply(Put(store, merged), Some(merged))
  }

  // ---------------------------------------------------------------------
  // Properties relating several calls
  // ---------------------------------------------------------------------

  /** After a partial update of a stored Produit, each field is the patch's
      value where the patch has one and the previously stored value where it
      is null; the id stays the same. */
  lemma PartialUpdateFields(store: Store, patch: Produit)
    requires Wf(store)
    requires patch.id.Some? && patch.id.value in store
    ensures var id := patch.id.value;
      var after := PartialUpdate(store, patch).store;
      && id in after
      && after[id].id == Some(id)
      && after[id].description == (if patch.description.Some? then patch.description else store[id].description)
      && after[id].nom == (if patch.nom.Some? then patch.nom else store[id].nom)
      && after[id].prix == (if patch.prix.Some? then patch.prix else store[id].prix)
  {
  }

  /** A patch whose fields are all null leaves the store as it was, although
      the record is written back. */
  lemma EmptyPatchChangesNothing(store: Store, patch: Produit)
    requires Wf(store)
    requires patch.id.Some?
    requires patch.description.None? && patch.nom.None? && patch.prix.None?
    ensures PartialUpdate(store, patch).store == store
    ensures patch.id.value in store ==> PartialUpdate(store, patch).value == Some(store[patch.id.value])
  {
    var id := patch.id.value;
    if id in store {
      assert Merge(store[id], patch) == store[id];
    }
  }

  /** A patch with every field set replaces the stored Produit by the patch
      itself (under the same id). */
  lemma FullPatchReplaces(store: Store, patch: Produit)
    requires Wf(store)
    requires patch.id.Some? && patch.id.value in store
    requires patch.description.Some? && patch.nom.Some? && patch.prix.Some?
    ensures PartialUpdate(store, patch).store == store[patch.id.value := patch]
    ensures PartialUpdate(store, patch).value == Some(patch)
  {
  }

  /** Merging the same patch twice is merging it once. */
  lemma MergeIdempotent(existing: Produit, patch: Produit)
    ensures Merge(Merge(existing, patch), patch) == Merge(existing, patch)
  {
  }

  /** Merging two patches in turn is merging once the patch in which the later
      patch's non-null fields win over the earlier one's. */
  lemma MergeCompose(existing: Produit, first: Produit, second: Produit)
    ensures Merge(Merge(existing, first), second) == Merge(existing, Merge(first, second))
  {
  }

  /** Applying the same patch twice gives the same store and the same reply as
      applying it once. */
  lemma PartialUpdateIdempotent(store: Store, patch: Produit)
    requires Wf(store)
    requires patch.id.Some?
    ensures var once := PartialUpdate(store, patch);
      PartialUpdate(once.store, patch) == once
  {
    var id := patch.id.value;
    if id in store {
      MergeIdempotent(store[id], patch);
      var once := PartialUpdate(store, patch);
      assert once.store[id] == Merge(store[id], patch);
    }
  }

  /** A partial update touches only the record it names: the number of
      documents and every other record are unchanged. */
  lemma PartialUpdateOnlyChangesTarget(store: Store, patch: Produit)
    requires Wf(store)
    requires patch.id.Some?
    ensures OnlyChanged(store, PartialUpdate(store, patch).store, patch.id.value)
    ensures CountAll(PartialUpdate(store, patch).store) == CountAll(store)
  {
  }

  /** A saved Produit is found again under the id it was saved with. */
  lemma SaveThenFindOne(store: Store, p: Produit, generatedId: string)
    requires p.id.None? ==> generatedId !in store
    ensures var saved := Save(store, p, generatedId);
      FindOne(saved.store, saved.value.id.value) == Some(saved.value)
  {
  }

  /** Deleting a stored Produit makes it unfindable and lowers the count by
      one; deleting an absent id changes nothing. */
  lemma DeleteThenFindOne(store: Store, id: string)
    ensures FindOne(Delete(store, id), id).None?
    ensures id in store ==> CountAll(Delete(store, id)) == CountAll(store) - 1
    ensures id !in store ==> Delete(store, id) == store
  {
  }
}
