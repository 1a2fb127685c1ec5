/**
 * Optimistic creation: the provisional identifier of a new item, the delta
 * the remote store's answer calls for, and the two ways the client applies it
 * (`handle_add_reducible` behind the `AddItem` transition, and the older
 * `handle_add`).
 */
module Add {
  import opened Wrappers
  import opened Backend
  import opened Cursors
  import opened Updates

  /** What `get_delta_for_add` hands to the `AddItem` transition. */
  datatype AddDelta = AddDelta(delta: seq<(ItemId, Item)>, id: ItemId, item: Item)

  /** The result of `handle_add_reducible`; `Panicked` when it panics on mismatched identifiers. */
  datatype AddOutcome = Applied(db: Db, cursors: UserCursors) | Panicked

  /** The result of `handle_add`; `HandlePanicked` when it panics on mismatched identifiers. */
  datatype HandleOutcome = Handled(db: Db, cursors: UserCursors, id: ItemId) | HandlePanicked

  /**
   * `get_next_id_for_category`: the provisional identifier of a new item is the
   * slot just past the end of its category's ledger.
   */
  function NextId(db: Db, item: Item): (id: ItemId)
    ensures item.UserDataItem? <==> id == UserDataId
    ensures item.Entity? ==> id.At? && id.kind == item.kind && id.pos == |Ledger(db, item.kind)|
  {
    match item
    case Entity(k, _, _) => At(k, |Ledger(db, k)|)
    case UserDataItem(_) => UserDataId
  }

  /** The reply to the add calls for reconciliation: the store assigned an identifier other than `local`. */
  predicate Conflict(reply: Option<Reply>, local: ItemId) {
    reply.Some? && reply.value.AddedItem? && reply.value.id != local
  }

  /** A backfill entry's item: the one the store returned, or the placeholder when the fetch did not return one. */
  function FetchOr(server: Server, id: ItemId, placeholder: Item): Item {
    match server(Get(id))
    case Some(ReturnedItem(x)) => x
    case _ => placeholder
  }

  /** One entry per identifier, fetched from the store or stood in for by the placeholder. */
  function Backfill(server: Server, ids: seq<ItemId>, placeholder: Item): seq<(ItemId, Item)> {
    seq(|ids|, j requires 0 <= j < |ids| => (ids[j], FetchOr(server, ids[j], placeholder)))
  }

  /**
   * `get_delta_for_add`: the item is stamped with `local` and sent to the
   * store. Only an `AddedItem` reply naming another identifier changes
   * anything: the item is restamped with that identifier, which is returned,
   * and the delta holds one entry per position from `local` up to it, in
   * order. A failed request, any other reply, or the local identifier back
   * leave an empty delta and the local identifier.
   */
  function GetDeltaForAdd(local: ItemId, added: Item, server: Server): (r: AddDelta)
    ensures var stamped := SetId(added, local);
      && (Conflict(server(Add(stamped)), local) <==> r.id != local)
      && (r.id != local ==> server(Add(stamped)) == Some(AddedItem(r.id)))
      && r.item == SetId(stamped, r.id)
      && (r.id == local ==> r.delta == [])
      && |r.delta| == |IdRange(local, r.id)|
      && (forall j :: 0 <= j < |r.delta| ==>
            r.delta[j].0 == At(local.kind, local.pos + j) && r.delta[j].1 == FetchOr(server, r.delta[j].0, r.item))
  {
    var stamped := SetId(added, local);
    match server(Add(stamped))
    case Some(AddedItem(id)) =>
      if local != id then
        var item := SetId(stamped, id);
        AddDelta(Backfill(server, IdRange(local, id), item), id, item)
      else AddDelta([], local, stamped)
    case _ => AddDelta([], local, stamped)
  }

  /** The categories whose cursors are re-pointed once an add settles. */
  predicate Remapped(k: Kind) {
    k == AccessModeKind || k == ChatKind || k == TagKind
  }

  /** Adding with identifiers `local` and `remote` panics: they name different categories on a re-pointing path. */
  predicate Mismatch(local: ItemId, remote: ItemId) {
    local.At? && Remapped(local.kind) && !(remote.At? && remote.kind == local.kind)
  }

  /**
   * The cursor re-pointing after an add: a cursor of the item's category that
   * `orig` had on `local` is put on `remote`; every other cursor keeps its value
   * in `cur`. The tag set is looked up in `cur`. `None` on a mismatch, where the
   * source panics.
   */
  function Remap(local: ItemId, remote: ItemId, orig: UserCursors, cur: UserCursors): (r: Option<UserCursors>)
    ensures r.None? <==> Mismatch(local, remote)
    ensures r.Some? ==>
              forall f :: Cursor(r.value, f) == (
                if local.At? && remote.At? && Remapped(local.kind) && FieldKind(f) == local.kind && Cursor(orig, f) == Some(local.pos)
                then Some(remote.pos)
                else Cursor(cur, f))
    ensures r.Some? ==> (r.value.chosenAccessModeTags == (
              if local.At? && remote.At? && local.kind == TagKind && local.pos in cur.chosenAccessModeTags
              then cur.chosenAccessModeTags - {local.pos} + {remote.pos}
              else cur.chosenAccessModeTags))
    ensures r.Some? ==> SameUnsynced(r.value, cur)
  {
    match local
    case At(AccessModeKind, l) =>
      if remote.At? && remote.kind == AccessModeKind then
        Some(cur.(accessModeForModification := if orig.accessModeForModification == Some(l) then Some(remote.pos) else cur.accessModeForModification,
                  chosenAccessMode := if orig.chosenAccessMode == l then remote.pos else cur.chosenAccessMode))
      else None
    case At(ChatKind, l) =>
      if remote.At? && remote.kind == ChatKind then
        Some(cur.(chosenChat := if orig.chosenChat == Some(l) then Some(remote.pos) else cur.chosenChat))
      else None
    case At(TagKind, l) =>
      if remote.At? && remote.kind == TagKind then
        Some(cur.(chosenParentTag := if orig.chosenParentTag == Some(l) then Some(remote.pos) else cur.chosenParentTag,
                  chosenTag := if orig.chosenTag == Some(l) then Some(remote.pos) else cur.chosenTag,
                  chosenAccessModeTags :=
                    if l in cur.chosenAccessModeTags then cur.chosenAccessModeTags - {l} + {remote.pos}
                    else cur.chosenAccessModeTags))
      else None
    case _ => Some(cur)
  }

  /**
   * `handle_add_reducible`: the delta and then the item at `remote` are merged
   * as server updates; then cursors the caller had on `local` are put on
   * `remote`, while every other cursor keeps the value the merges left. A
   * selected tag at `local` after the merges is swapped for `remote`.
   */
  function HandleAddReducible(db: Db, local: ItemId, remote: ItemId, added: Item, cursors: UserCursors,
                              delta: seq<(ItemId, Item)>, accepts: Verdict): (r: AddOutcome)
    ensures r.Panicked? <==> Mismatch(local, remote)
    ensures var first := ApplyServerUpdates(db, delta, cursors, accepts);
      var second := ApplyServerUpdates(first.db, [(remote, added)], first.cursors, accepts);
      r.Applied? ==>
        && r.db == second.db
        && (forall f :: Cursor(r.cursors, f) == (
              if local.At? && remote.At? && Remapped(local.kind) && FieldKind(f) == local.kind && Cursor(cursors, f) == Some(local.pos)
              then Some(remote.pos)
              else Cursor(second.cursors, f)))
        && r.cursors.chosenAccessModeTags == (
              if local.At? && remote.At? && local.kind == TagKind && local.pos in second.cursors.chosenAccessModeTags
              then second.cursors.chosenAccessModeTags - {local.pos} + {remote.pos}
              else second.cursors.chosenAccessModeTags)
        && SameUnsynced(r.cursors, cursors)
  {
    var first := ApplyServerUpdates(db, delta, cursors, accepts);
    var second := ApplyServerUpdates(first.db, [(remote, added)], first.cursors, accepts);
    match Remap(local, remote, cursors, second.cursors)
    case Some(c) => Applied(second.db, c)
    case None => Panicked
  }

  /** `insert_directly` applied to each backfill entry's item, first entry first. */
  function InsertAll(insert: DirectInsert, db: Db, entries: seq<(ItemId, Item)>): Db
    decreases |entries|
  {
    if |entries| == 0 then db
    else insert(InsertAll(insert, db, entries[..|entries| - 1]), entries[|entries| - 1].1)
  }

  /**
   * `handle_add`, the older reconciliation: given the store's reply to the add,
   * fetch and insert every item from `local` up to the assigned identifier,
   * the local-stamped item standing in for any failed fetch, then re-point
   * the cursors from `local` to it. Any other reply, or `local` itself back,
   * returns the cursors and `local` unchanged without inserting anything.
   */
  method HandleAdd(db: Db, local: ItemId, added: Item, response: Reply, cursors: UserCursors,
                   server: Server, insert: DirectInsert) returns (r: HandleOutcome)
    ensures !(response.AddedItem? && response.id != local) ==> r == Handled(db, cursors, local)
    ensures response.AddedItem? && response.id != local ==>
      && (r.HandlePanicked? <==> Mismatch(local, response.id))
      && (r.Handled? ==>
            && r.id == response.id
            && Some(r.cursors) == Remap(local, response.id, cursors, cursors)
            && r.db == InsertAll(insert, db, Backfill(server, IdRange(local, response.id), SetId(added, local))))
  {
    var stamped := SetId(added, local);
    if response.AddedItem? && response.id != local {
      var remote := response.id;
      var entries := Backfill(server, IdRange(local, remote), stamped);
      var current := db;
      var i := 0;
      while i < |entries|
        invariant 0 <= i <= |entries|
        invariant current == InsertAll(insert, db, entries[..i])
      {
        var item := FetchOr(server, IdRange(local, remote)[i], stamped);
        current := insert(current, item);
        assert entries[..i + 1][..i] == entries[..i];
        i := i + 1;
      }
      assert entries[..|entries|] == entries;
      var remapped := Remap(local, remote, cursors, cursors);
      if remapped.Some? {
        r := Handled(current, remapped.value, remote);
      } else {
        r := HandlePanicked;
      }
    } else {
      r := Handled(db, cursors, local);
    }
  }
}
