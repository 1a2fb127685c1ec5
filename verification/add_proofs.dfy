/**
 * Properties of optimistic creation as a whole: the provisional identifier,
 * the store's answer and the `AddItem` transition taken together.
 */
module AddProofs {
  import opened Wrappers
  import opened Backend
  import opened Cursors
  import opened Updates
  import opened UpdatesProofs
  import opened Add

  /**
   * Every item the store returns for a position in `[from, to)` of category
   * `k` is an entity of `k` numbered at or past that position.
   */
  ghost predicate FetchesInPlace(server: Server, k: Kind, from: nat, to: nat) {
    forall i :: from <= i < to && Answer(server, k, i).Some? && Answer(server, k, i).value.ReturnedItem? ==>
      var y := Answer(server, k, i).value.item;
      y.Entity? && y.kind == k && y.id >= i
  }

  /** Every fetch of a position in `[from, to)` of category `k` succeeds with the entity numbered at it. */
  ghost predicate HonestFetches(server: Server, k: Kind, from: nat, to: nat) {
    forall i :: from <= i < to ==>
      Answer(server, k, i).Some? && Answer(server, k, i).value.ReturnedItem?
      && var y := Answer(server, k, i).value.item;
      y.Entity? && y.kind == k && y.id == i
  }

  /**
   * The provisional identifier is the slot a push fills: merging the item
   * stamped with it appends it to its ledger, moves no cursor, and keeps a
   * well-numbered ledger well numbered.
   */
  lemma NextIdIsAppendSlot(db: Db, x: Item, cursors: UserCursors, accepts: Verdict)
    requires x.Entity?
    ensures var id := NextId(db, x);
      var r := ApplyServerUpdates(db, [(id, SetId(x, id))], cursors, accepts);
      && Ledger(r.db, x.kind) == Ledger(db, x.kind) + [SetId(x, id)]
      && r.cursors == cursors
      && (WellNumbered(Ledger(db, x.kind), x.kind) ==> WellNumbered(Ledger(r.db, x.kind), x.kind))
  {
    var id := NextId(db, x);
    AppendMovesNoCursor(db, id, SetId(x, id), cursors, accepts);
  }

  /** A store that always assigns the identifier it is given never causes a backfill. */
  lemma EchoingStoreNeverConflicts(db: Db, x: Item, server: Server)
    requires forall y :: server(Add(y)) == Some(AddedItem(IdOf(y)))
    ensures var local := NextId(db, x);
      GetDeltaForAdd(local, x, server) == AddDelta([], local, SetId(x, local))
  {
    var local := NextId(db, x);
    assert IdOf(SetId(x, local)) == local;
  }

  /**
   * What a tab does to create an item: take the provisional identifier, ask
   * the store for the delta, and dispatch the `AddItem` transition with it.
   */
  ghost function CreateAndSync(db: Db, x: Item, cursors: UserCursors, server: Server, accepts: Verdict): AddOutcome {
    var local := NextId(db, x);
    var d := GetDeltaForAdd(local, x, server);
    HandleAddReducible(db, local, d.id, d.item, cursors, d.delta, accepts)
  }

  /** The premises under which an add numbered `R` by the store settles by appending. */
  ghost predicate SettlesAt(db: Db, x: Item, server: Server, R: nat) {
    && x.Entity?
    && |Ledger(db, x.kind)| <= R
    && server(Add(SetId(x, At(x.kind, |Ledger(db, x.kind)|)))) == Some(AddedItem(At(x.kind, R)))
    && FetchesInPlace(server, x.kind, |Ledger(db, x.kind)|, R)
  }

  /** Under `SettlesAt`, the delta covers `[L, R)` with items each numbered at or past its slot. */
  lemma SettledDelta(db: Db, x: Item, server: Server, R: nat)
    requires SettlesAt(db, x, server, R)
    ensures var k, L := x.kind, |Ledger(db, x.kind)|;
      var d := GetDeltaForAdd(NextId(db, x), x, server);
      && d.id == At(k, R)
      && d.item == SetId(x, At(k, R))
      && |d.delta| == R - L
      && (forall j :: 0 <= j < |d.delta| ==>
            && d.delta[j].1 == FetchOr(server, At(k, L + j), SetId(x, At(k, R)))
            && d.delta[j].1.Entity? && d.delta[j].1.kind == k && d.delta[j].1.id >= L + j)
  {
    var k, L := x.kind, |Ledger(db, x.kind)|;
    var d := GetDeltaForAdd(NextId(db, x), x, server);
    forall j | 0 <= j < |d.delta|
      ensures d.delta[j].1 == FetchOr(server, At(k, L + j), SetId(x, At(k, R)))
      ensures d.delta[j].1.Entity? && d.delta[j].1.kind == k && d.delta[j].1.id >= L + j
    {
      assert d.delta[j].0 == At(k, L + j);
      assert Answer(server, k, L + j) == server(Get(At(k, L + j)));
    }
  }

  /** Under `SettlesAt`, both merges of the transition push, so no cursor moves before the re-pointing. */
  lemma SettledMerges(db: Db, x: Item, cursors: UserCursors, server: Server, accepts: Verdict, R: nat)
    requires SettlesAt(db, x, server, R)
    ensures var k := x.kind;
      var d := GetDeltaForAdd(NextId(db, x), x, server);
      var first := ApplyServerUpdates(db, d.delta, cursors, accepts);
      var second := ApplyServerUpdates(first.db, [(d.id, d.item)], first.cursors, accepts);
      && second.cursors == cursors
      && Ledger(second.db, k) == Ledger(db, k) + Items(d.delta) + [d.item]
      && (forall k' :: k' != k ==> Ledger(second.db, k') == Ledger(db, k'))
      && second.db.userData == db.userData
  {
    var k, L := x.kind, |Ledger(db, x.kind)|;
    var d := GetDeltaForAdd(NextId(db, x), x, server);
    SettledDelta(db, x, server, R);
    AppendRun(db, k, d.delta, accepts);
    var first := ApplyServerUpdates(db, d.delta, cursors, accepts);
    AppendRun(first.db, k, [(d.id, d.item)], accepts);
  }

  /**
   * An add that the store numbers `R`, at or past the provisional slot `L`,
   * settles by appending: the ledger keeps its first `L` items, gains one
   * item per position of `[L, R)` (the fetched item, or the placeholder
   * stamped `R`) and ends with the item stamped `R`; no other ledger and not
   * the user data changes.
   */
  lemma AddSettlesLedger(db: Db, x: Item, cursors: UserCursors, server: Server, accepts: Verdict, R: nat)
    requires SettlesAt(db, x, server, R)
    ensures var k, L := x.kind, |Ledger(db, x.kind)|;
      var r := CreateAndSync(db, x, cursors, server, accepts);
      && r.Applied?
      && |Ledger(r.db, k)| == R + 1
      && Ledger(r.db, k)[..L] == Ledger(db, k)
      && (forall i :: L <= i < R ==> Ledger(r.db, k)[i] == FetchOr(server, At(k, i), SetId(x, At(k, R))))
      && Ledger(r.db, k)[R] == SetId(x, At(k, R))
      && (forall k' :: k' != k ==> Ledger(r.db, k') == Ledger(db, k'))
      && r.db.userData == db.userData
  {
    var k := x.kind;
    var d := GetDeltaForAdd(NextId(db, x), x, server);
    SettledMerges(db, x, cursors, server, accepts, R);
    SettledShape(db, x, server, R);
    var r := CreateAndSync(db, x, cursors, server, accepts);
    assert Ledger(r.db, k) == Ledger(db, k) + Items(d.delta) + [d.item];
  }

  /** The ledger a settled add builds, laid out position by position. */
  lemma SettledShape(db: Db, x: Item, server: Server, R: nat)
    requires SettlesAt(db, x, server, R)
    ensures var k, L := x.kind, |Ledger(db, x.kind)|;
      var d := GetDeltaForAdd(NextId(db, x), x, server);
      var s := Ledger(db, k) + Items(d.delta) + [d.item];
      && |s| == R + 1
      && s[..L] == Ledger(db, k)
      && (forall i :: L <= i < R ==> s[i] == FetchOr(server, At(k, i), SetId(x, At(k, R))))
      && s[R] == SetId(x, At(k, R))
  {
    var k, L := x.kind, |Ledger(db, x.kind)|;
    var d := GetDeltaForAdd(NextId(db, x), x, server);
    var mid := Items(d.delta);
    var s := Ledger(db, k) + mid + [d.item];
    assert |mid| == R - L && d.item == SetId(x, At(k, R)) &&
           forall j :: 0 <= j < |mid| ==> mid[j] == FetchOr(server, At(k, L + j), SetId(x, At(k, R))) by {
      SettledDelta(db, x, server, R);
    }
    ThreeParts(Ledger(db, k), mid, d.item);
    forall i | L <= i < R
      ensures s[i] == FetchOr(server, At(k, i), SetId(x, At(k, R)))
    {
      var j := i - L;
      assert s[i] == mid[j];
    }
  }

  /** Where the parts of a sequence made of a prefix, a middle run and one last element sit in it. */
  lemma ThreeParts(pre: seq<Item>, mid: seq<Item>, last: Item)
    ensures var s := pre + mid + [last];
      && |s| == |pre| + |mid| + 1
      && s[..|pre|] == pre
      && (forall i :: |pre| <= i < |pre| + |mid| ==> s[i] == mid[i - |pre|])
      && s[|pre| + |mid|] == last
  {
  }

  /**
   * In the same add, each cursor of the item's category that was on the
   * provisional slot `L` ends on `R`, as does a selected access-mode tag at
   * `L` when the item is a tag; no other cursor moves.
   */
  lemma AddSettlesCursors(db: Db, x: Item, cursors: UserCursors, server: Server, accepts: Verdict, R: nat)
    requires SettlesAt(db, x, server, R)
    ensures var k, L := x.kind, |Ledger(db, x.kind)|;
      var r := CreateAndSync(db, x, cursors, server, accepts);
      && r.Applied?
      && (forall f :: Cursor(r.cursors, f) == (
            if Remapped(k) && FieldKind(f) == k && Cursor(cursors, f) == Some(L) then Some(R) else Cursor(cursors, f)))
      && r.cursors.chosenAccessModeTags == (
            if k == TagKind && L in cursors.chosenAccessModeTags
            then cursors.chosenAccessModeTags - {L} + {R}
            else cursors.chosenAccessModeTags)
      && SameUnsynced(r.cursors, cursors)
  {
    SettledDelta(db, x, server, R);
    SettledMerges(db, x, cursors, server, accepts, R);
  }

  /**
   * When the store answers every backfill fetch with the entity numbered at
   * that position, a well-numbered ledger stays well numbered across the add.
   */
  lemma HonestAddKeepsNumbering(db: Db, x: Item, cursors: UserCursors, server: Server, accepts: Verdict, R: nat)
    requires x.Entity?
    requires |Ledger(db, x.kind)| <= R
    requires server(Add(SetId(x, At(x.kind, |Ledger(db, x.kind)|)))) == Some(AddedItem(At(x.kind, R)))
    requires HonestFetches(server, x.kind, |Ledger(db, x.kind)|, R)
    requires WellNumbered(Ledger(db, x.kind), x.kind)
    ensures var r := CreateAndSync(db, x, cursors, server, accepts);
      r.Applied? && WellNumbered(Ledger(r.db, x.kind), x.kind)
  {
    var k := x.kind;
    var d := GetDeltaForAdd(NextId(db, x), x, server);
    assert SettlesAt(db, x, server, R);
    SettledMerges(db, x, cursors, server, accepts, R);
    HonestShapeNumbered(db, x, server, R);
    var r := CreateAndSync(db, x, cursors, server, accepts);
    assert Ledger(r.db, k) == Ledger(db, k) + Items(d.delta) + [d.item];
  }

  /** With honest fetches, the ledger a settled add builds numbers every item at its position. */
  lemma HonestShapeNumbered(db: Db, x: Item, server: Server, R: nat)
    requires SettlesAt(db, x, server, R)
    requires HonestFetches(server, x.kind, |Ledger(db, x.kind)|, R)
    requires WellNumbered(Ledger(db, x.kind), x.kind)
    ensures var d := GetDeltaForAdd(NextId(db, x), x, server);
      WellNumbered(Ledger(db, x.kind) + Items(d.delta) + [d.item], x.kind)
  {
    var k, L := x.kind, |Ledger(db, x.kind)|;
    var d := GetDeltaForAdd(NextId(db, x), x, server);
    var s := Ledger(db, k) + Items(d.delta) + [d.item];
    SettledShape(db, x, server, R);
    forall p | 0 <= p < |s|
      ensures s[p].Entity? && s[p].kind == k && s[p].id == p
    {
      if p < L {
        assert s[p] == s[..L][p] == Ledger(db, k)[p];
      } else if p < R {
        assert Answer(server, k, p) == server(Get(At(k, p)));
      }
    }
  }


  /**
   * A failed backfill fetch leaves a misnumbered item behind: the placeholder
   * fills position `L` but records the store's identifier `R`.
   */
  lemma FailedFetchLeavesMisnumberedPlaceholder(db: Db, x: Item, cursors: UserCursors, server: Server,
                                                accepts: Verdict, R: nat)
    requires SettlesAt(db, x, server, R)
    requires |Ledger(db, x.kind)| < R
    requires Answer(server, x.kind, |Ledger(db, x.kind)|).None?
    ensures var L := |Ledger(db, x.kind)|;
      var r := CreateAndSync(db, x, cursors, server, accepts);
      r.Applied? && L < |Ledger(r.db, x.kind)| && Ledger(r.db, x.kind)[L] == SetId(x, At(x.kind, R))
      && Ledger(r.db, x.kind)[L].id != L
  {
    AddSettlesLedger(db, x, cursors, server, accepts, R);
    assert Answer(server, x.kind, |Ledger(db, x.kind)|) == server(Get(At(x.kind, |Ledger(db, x.kind)|)));
  }

  /**
   * With the provisional identifier confirmed, the re-pointing changes nothing
   * except that a cursor the caller had on that identifier is put back on it
   * even if the merges moved it away.
   */
  lemma ConfirmedIdRemap(local: ItemId, orig: UserCursors, cur: UserCursors)
    requires forall f :: local.At? && FieldKind(f) == local.kind && Cursor(orig, f) == Some(local.pos) ==> Cursor(cur, f) == Cursor(orig, f)
    ensures Remap(local, local, orig, cur) == Some(cur)
  {
    var r := Remap(local, local, orig, cur);
    assert r.Some?;
    assert r.value.chosenAccessModeTags == cur.chosenAccessModeTags;
    assert SameUnsynced(r.value, cur);
    forall f ensures Cursor(r.value, f) == Cursor(cur, f) {
      if local.At? && FieldKind(f) == local.kind && Cursor(orig, f) == Some(local.pos) {
        assert Cursor(cur, f) == Cursor(orig, f);
      }
    }
    assert Cursor(r.value, ChosenAccessMode) == Cursor(cur, ChosenAccessMode);
    assert Cursor(r.value, AccessModeForModification) == Cursor(cur, AccessModeForModification);
    assert Cursor(r.value, ChosenChat) == Cursor(cur, ChosenChat);
    assert Cursor(r.value, ChosenTag) == Cursor(cur, ChosenTag);
    assert Cursor(r.value, ChosenParentTag) == Cursor(cur, ChosenParentTag);
    assert Cursor(r.value, ChosenConfig) == Cursor(cur, ChosenConfig);
    assert Cursor(r.value, ConfigForModification) == Cursor(cur, ConfigForModification);
  }

  /** An `insert_directly` that appends every entity to its category's ledger. */
  ghost predicate Appends(insert: DirectInsert) {
    forall d: Db, y: Item :: y.Entity? ==> insert(d, y) == Push(d, y)
  }

  /** The items of a batch with one more entry are the items before it followed by its item. */
  lemma ItemsSnoc(entries: seq<(ItemId, Item)>)
    requires |entries| > 0
    ensures Items(entries) == Items(entries[..|entries| - 1]) + [entries[|entries| - 1].1]
  {
    var n := |entries|;
    var front := Items(entries[..n - 1]) + [entries[n - 1].1];
    forall j | 0 <= j < n
      ensures Items(entries)[j] == front[j]
    {
      if j < n - 1 {
        assert front[j] == Items(entries[..n - 1])[j] == entries[..n - 1][j].1;
      }
    }
  }

  /** Under an appending `insert_directly`, inserting a run of one category appends its items in order. */
  lemma {:induction false} InsertAllAppends(insert: DirectInsert, db: Db, k: Kind, entries: seq<(ItemId, Item)>)
    requires Appends(insert)
    requires forall j :: 0 <= j < |entries| ==> entries[j].1.Entity? && entries[j].1.kind == k
    ensures InsertAll(insert, db, entries) == WithLedger(db, k, Ledger(db, k) + Items(entries))
    decreases |entries|
  {
    if |entries| == 0 {
      WithOwnLedger(db, k);
    } else {
      var n := |entries|;
      var front := entries[..n - 1];
      var mid := Ledger(db, k) + Items(front);
      InsertAllAppends(insert, db, k, front);
      ItemsSnoc(entries);
      assert InsertAll(insert, db, entries) == Push(WithLedger(db, k, mid), entries[n - 1].1);
      WithLedgerTwice(db, k, mid, mid + [entries[n - 1].1]);
    }
  }

  /**
   * Under honest fetches, the backfill `handle_add` inserts holds the same
   * items as the delta the `AddItem` transition merges, whichever item each
   * stands in with for a failed fetch.
   */
  lemma HonestBackfillsAgree(db: Db, x: Item, server: Server, R: nat)
    requires SettlesAt(db, x, server, R)
    requires HonestFetches(server, x.kind, |Ledger(db, x.kind)|, R)
    ensures var local := NextId(db, x);
      var entries := Backfill(server, IdRange(local, At(x.kind, R)), SetId(x, local));
      var d := GetDeltaForAdd(local, x, server);
      && Items(entries) == Items(d.delta)
      && (forall j :: 0 <= j < |entries| ==> entries[j].1.Entity? && entries[j].1.kind == x.kind)
  {
    var k, L := x.kind, |Ledger(db, x.kind)|;
    var local := NextId(db, x);
    var entries := Backfill(server, IdRange(local, At(k, R)), SetId(x, local));
    var d := GetDeltaForAdd(local, x, server);
    SettledDelta(db, x, server, R);
    forall j | 0 <= j < |entries|
      ensures entries[j].1 == d.delta[j].1 && entries[j].1.Entity? && entries[j].1.kind == k
    {
      assert entries[j].0 == At(k, L + j);
      assert Answer(server, k, L + j) == server(Get(At(k, L + j)));
    }
  }

  /**
   * `handle_add` and the `AddItem` transition agree once an add settles with
   * honest fetches and an appending `insert_directly`: `handle_add` inserts
   * the backfill but never the item stamped `R`, and pushing that item after
   * it gives the transition's database; `handle_add`'s re-pointing of the
   * input cursors gives the transition's cursors.
   */
  lemma HandleAddAgreesWithReducible(db: Db, x: Item, cursors: UserCursors, server: Server, accepts: Verdict,
                                     insert: DirectInsert, R: nat)
    requires SettlesAt(db, x, server, R)
    requires HonestFetches(server, x.kind, |Ledger(db, x.kind)|, R)
    requires Appends(insert)
    ensures var local, remote := NextId(db, x), At(x.kind, R);
      var r := CreateAndSync(db, x, cursors, server, accepts);
      var backfilled := InsertAll(insert, db, Backfill(server, IdRange(local, remote), SetId(x, local)));
      && r.Applied?
      && r.db == Push(backfilled, SetId(x, remote))
      && Remap(local, remote, cursors, cursors) == Some(r.cursors)
  {
    var k := x.kind;
    var local, remote := NextId(db, x), At(k, R);
    var d := GetDeltaForAdd(local, x, server);
    var entries := Backfill(server, IdRange(local, remote), SetId(x, local));
    SettledDelta(db, x, server, R);
    SettledMerges(db, x, cursors, server, accepts, R);
    HonestBackfillsAgree(db, x, server, R);
    InsertAllAppends(insert, db, k, entries);
    AppendRun(db, k, d.delta, accepts);
    var first := ApplyServerUpdates(db, d.delta, cursors, accepts);
    AppendRun(first.db, k, [(d.id, d.item)], accepts);
    assert Items([(d.id, d.item)]) == [d.item];
  }

  /** A settled add re-points the input cursors exactly as `handle_add` does. */
  lemma SettledRemap(db: Db, x: Item, cursors: UserCursors, server: Server, accepts: Verdict, R: nat)
    requires SettlesAt(db, x, server, R)
    ensures var r := CreateAndSync(db, x, cursors, server, accepts);
      r.Applied? && Remap(NextId(db, x), At(x.kind, R), cursors, cursors) == Some(r.cursors)
  {
    SettledDelta(db, x, server, R);
    SettledMerges(db, x, cursors, server, accepts, R);
  }

  /**
   * An `insert_directly` that puts every entity at its own position: before
   * the item there, moving it and every later one up by a position, or at the
   * end when its position is the ledger's length.
   */
  ghost predicate PlacesAtOwnId(insert: DirectInsert) {
    forall d: Db, y: Item :: y.Entity? && y.id <= |Ledger(d, y.kind)| ==>
      insert(d, y) == WithLedger(d, y.kind, Ledger(d, y.kind)[..y.id] + [y] + Ledger(d, y.kind)[y.id..])
  }

  /** A placing `insert_directly` puts an item numbered just before a ledger's last item in front of it. */
  lemma PlaceBeforeLast(insert: DirectInsert, before: Db, k: Kind, head: seq<Item>, last: Item, y: Item)
    requires PlacesAtOwnId(insert)
    requires Ledger(before, k) == head + [last]
    requires y.Entity? && y.kind == k && y.id == |head|
    ensures insert(before, y) == WithLedger(before, k, head + [y] + [last])
  {
    assert Ledger(before, k)[..y.id] == head && Ledger(before, k)[y.id..] == [last];
  }

  /**
   * Under a placing `insert_directly`, a run numbered from the end of `pre`
   * on goes in between `pre` and the ledger's last item, in order.
   */
  lemma {:induction false} InsertAllPlaces(insert: DirectInsert, db: Db, k: Kind, pre: seq<Item>, last: Item,
                                           entries: seq<(ItemId, Item)>)
    requires PlacesAtOwnId(insert)
    requires Ledger(db, k) == pre + [last]
    requires forall j :: 0 <= j < |entries| ==>
      entries[j].1.Entity? && entries[j].1.kind == k && entries[j].1.id == |pre| + j
    ensures InsertAll(insert, db, entries) == WithLedger(db, k, pre + Items(entries) + [last])
    decreases |entries|
  {
    if |entries| == 0 {
      assert pre + Items(entries) + [last] == Ledger(db, k);
      WithOwnLedger(db, k);
    } else {
      var n := |entries|;
      var front := entries[..n - 1];
      var y := entries[n - 1].1;
      var head := pre + Items(front);
      InsertAllPlaces(insert, db, k, pre, last, front);
      PlaceBeforeLast(insert, WithLedger(db, k, head + [last]), k, head, last, y);
      WithLedgerTwice(db, k, head + [last], head + [y] + [last]);
      ItemsSnoc(entries);
      SnocAssoc(pre, Items(front), y);
    }
  }

  lemma SnocAssoc(pre: seq<Item>, mid: seq<Item>, y: Item)
    ensures pre + (mid + [y]) == pre + mid + [y]
  {
  }

  /** Two databases with the same ledgers and the same user data are the same database. */
  lemma SameLedgers(a: Db, b: Db)
    requires forall k :: Ledger(a, k) == Ledger(b, k)
    requires a.userData == b.userData
    ensures a == b
  {
    assert a.accessModes == Ledger(b, AccessModeKind);
    assert a.chats == Ledger(b, ChatKind);
    assert a.configs == Ledger(b, ConfigKind);
    assert a.devices == Ledger(b, DeviceKind);
    assert a.files == Ledger(b, FileKind);
    assert a.folders == Ledger(b, FolderKind);
    assert a.tags == Ledger(b, TagKind);
  }

  /** Under honest fetches, the backfill's `j`-th item is the entity numbered `L + j`. */
  lemma HonestBackfillNumbered(db: Db, x: Item, server: Server, R: nat)
    requires SettlesAt(db, x, server, R)
    requires HonestFetches(server, x.kind, |Ledger(db, x.kind)|, R)
    ensures var local, L := NextId(db, x), |Ledger(db, x.kind)|;
      var entries := Backfill(server, IdRange(local, At(x.kind, R)), SetId(x, local));
      && |entries| == R - L
      && forall j :: 0 <= j < |entries| ==>
           entries[j].1.Entity? && entries[j].1.kind == x.kind && entries[j].1.id == L + j
  {
    var k, L := x.kind, |Ledger(db, x.kind)|;
    var local := NextId(db, x);
    var entries := Backfill(server, IdRange(local, At(k, R)), SetId(x, local));
    SettledDelta(db, x, server, R);
    HonestBackfillsAgree(db, x, server, R);
    assert |entries| == |Items(entries)|;
    forall j | 0 <= j < |entries|
      ensures entries[j].1.Entity? && entries[j].1.kind == k && entries[j].1.id == L + j
    {
      assert entries[j].0 == At(k, L + j);
      assert Answer(server, k, L + j) == server(Get(At(k, L + j)));
    }
  }

  /**
   * What the callers get: they add the item stamped `local` to their copy
   * before calling `handle_add`. With an appending `insert_directly` the item
   * stays at `L` and the backfill lands after it, so position `R`, where the
   * re-pointed cursors go, holds the item numbered `R - 1`, not the new one.
   */
  lemma CallerHandleAddAppends(db: Db, x: Item, cursors: UserCursors, server: Server, accepts: Verdict,
                               insert: DirectInsert, R: nat)
    requires SettlesAt(db, x, server, R)
    requires HonestFetches(server, x.kind, |Ledger(db, x.kind)|, R)
    requires Appends(insert)
    requires |Ledger(db, x.kind)| < R
    ensures var k, L := x.kind, |Ledger(db, x.kind)|;
      var local, remote := NextId(db, x), At(k, R);
      var handled := InsertAll(insert, Push(db, SetId(x, local)), Backfill(server, IdRange(local, remote), SetId(x, local)));
      var r := CreateAndSync(db, x, cursors, server, accepts);
      && r.Applied?
      && Remap(local, remote, cursors, cursors) == Some(r.cursors)
      && |Ledger(handled, k)| == |Ledger(r.db, k)| == R + 1
      && Ledger(handled, k)[L] == SetId(x, local)
      && Ledger(handled, k)[R].Entity? && Ledger(handled, k)[R].id == R - 1
      && Ledger(r.db, k)[R] == SetId(x, remote)
  {
    var k, L := x.kind, |Ledger(db, x.kind)|;
    var local, remote := NextId(db, x), At(k, R);
    var db0 := Push(db, SetId(x, local));
    var entries := Backfill(server, IdRange(local, remote), SetId(x, local));
    AddSettlesLedger(db, x, cursors, server, accepts, R);
    SettledRemap(db, x, cursors, server, accepts, R);
    HonestBackfillNumbered(db, x, server, R);
    InsertAllAppends(insert, db0, k, entries);
    var s := Ledger(db, k) + [SetId(x, local)] + Items(entries);
    assert Ledger(InsertAll(insert, db0, entries), k) == s;
    assert s[L] == SetId(x, local);
    assert s[R] == Items(entries)[R - L - 1] == entries[R - L - 1].1;
  }

  /** Under a placing `insert_directly`, the callers' backfill goes in between the old ledger and their copy of the item. */
  lemma PlacedBackfill(db: Db, x: Item, server: Server, insert: DirectInsert, R: nat)
    requires SettlesAt(db, x, server, R)
    requires HonestFetches(server, x.kind, |Ledger(db, x.kind)|, R)
    requires PlacesAtOwnId(insert)
    ensures var k, local := x.kind, NextId(db, x);
      var d := GetDeltaForAdd(local, x, server);
      var entries := Backfill(server, IdRange(local, At(k, R)), SetId(x, local));
      InsertAll(insert, Push(db, SetId(x, local)), entries) == WithLedger(db, k, Ledger(db, k) + Items(d.delta) + [SetId(x, local)])
  {
    var k, local := x.kind, NextId(db, x);
    var entries := Backfill(server, IdRange(local, At(k, R)), SetId(x, local));
    var s := Ledger(db, k) + Items(entries) + [SetId(x, local)];
    HonestBackfillsAgree(db, x, server, R);
    HonestBackfillNumbered(db, x, server, R);
    InsertAllPlaces(insert, Push(db, SetId(x, local)), k, Ledger(db, k), SetId(x, local), entries);
    WithLedgerTwice(db, k, Ledger(db, k) + [SetId(x, local)], s);
  }

  /** The database a settled add reaches, as one ledger replaced. */
  lemma SettledDb(db: Db, x: Item, cursors: UserCursors, server: Server, accepts: Verdict, R: nat)
    requires SettlesAt(db, x, server, R)
    ensures var k := x.kind;
      var d := GetDeltaForAdd(NextId(db, x), x, server);
      var r := CreateAndSync(db, x, cursors, server, accepts);
      && r.Applied?
      && |Ledger(db, k) + Items(d.delta)| == R
      && r.db == WithLedger(db, k, Ledger(db, k) + Items(d.delta) + [d.item])
  {
    var k := x.kind;
    var d := GetDeltaForAdd(NextId(db, x), x, server);
    var r := CreateAndSync(db, x, cursors, server, accepts);
    SettledDelta(db, x, server, R);
    SettledMerges(db, x, cursors, server, accepts, R);
    SameLedgers(r.db, WithLedger(db, k, Ledger(db, k) + Items(d.delta) + [d.item]));
  }

  /** Overwriting the last element of a sequence. */
  lemma ReplaceLast(s: seq<Item>, a: Item, b: Item)
    ensures (s + [a])[|s| := b] == s + [b]
  {
  }

  /**
   * With a placing `insert_directly`, the callers' `handle_add` lays the
   * ledger out as the `AddItem` transition does, except that the item at `R`
   * keeps the stamp `local`: `handle_add` never re-stamps the caller's copy.
   */
  lemma CallerHandleAddPlacing(db: Db, x: Item, cursors: UserCursors, server: Server, accepts: Verdict,
                               insert: DirectInsert, R: nat)
    requires SettlesAt(db, x, server, R)
    requires HonestFetches(server, x.kind, |Ledger(db, x.kind)|, R)
    requires PlacesAtOwnId(insert)
    ensures var k := x.kind;
      var local, remote := NextId(db, x), At(k, R);
      var handled := InsertAll(insert, Push(db, SetId(x, local)), Backfill(server, IdRange(local, remote), SetId(x, local)));
      var r := CreateAndSync(db, x, cursors, server, accepts);
      && r.Applied?
      && Remap(local, remote, cursors, cursors) == Some(r.cursors)
      && |Ledger(r.db, k)| == R + 1
      && handled == WithLedger(r.db, k, Ledger(r.db, k)[R := SetId(x, local)])
  {
    var k, local := x.kind, NextId(db, x);
    var d := GetDeltaForAdd(local, x, server);
    var r := CreateAndSync(db, x, cursors, server, accepts);
    var pre := Ledger(db, k) + Items(d.delta);
    SettledDb(db, x, cursors, server, accepts, R);
    SettledRemap(db, x, cursors, server, accepts, R);
    PlacedBackfill(db, x, server, insert, R);
    ReplaceLast(pre, d.item, SetId(x, local));
    WithLedgerTwice(db, k, pre + [d.item], pre + [SetId(x, local)]);
  }

  /**
   * A settled add leaves no cursor dangling: every cursor that was in range,
   * or that sat on the provisional slot `L` of the item's category (where the
   * tabs put it before the item exists), ends in range.
   */
  lemma SettledAddKeepsCursorsInRange(db: Db, x: Item, cursors: UserCursors, server: Server, accepts: Verdict, R: nat)
    requires SettlesAt(db, x, server, R)
    ensures var k, L := x.kind, |Ledger(db, x.kind)|;
      var r := CreateAndSync(db, x, cursors, server, accepts);
      && r.Applied?
      && (forall f ::
            (Cursor(cursors, f).Some? &&
             (Cursor(cursors, f).value < |Ledger(db, FieldKind(f))| || (FieldKind(f) == k && Cursor(cursors, f).value == L))) ==>
            Cursor(r.cursors, f).Some? && Cursor(r.cursors, f).value < |Ledger(r.db, FieldKind(f))|)
  {
    var k, L := x.kind, |Ledger(db, x.kind)|;
    AddSettlesLedger(db, x, cursors, server, accepts, R);
    AddSettlesCursors(db, x, cursors, server, accepts, R);
    var r := CreateAndSync(db, x, cursors, server, accepts);
    forall f | Cursor(cursors, f).Some? &&
               (Cursor(cursors, f).value < |Ledger(db, FieldKind(f))| || (FieldKind(f) == k && Cursor(cursors, f).value == L))
      ensures Cursor(r.cursors, f).Some? && Cursor(r.cursors, f).value < |Ledger(r.db, FieldKind(f))|
    {
      if FieldKind(f) != k {
        assert Ledger(r.db, FieldKind(f)) == Ledger(db, FieldKind(f));
      }
    }
  }

  /** Likewise for the selected tags: all in range, or at the provisional slot of a new tag, before a settled add, all in range after it. */
  lemma SettledAddKeepsTagsInRange(db: Db, x: Item, cursors: UserCursors, server: Server, accepts: Verdict, R: nat)
    requires SettlesAt(db, x, server, R)
    requires forall t :: t in cursors.chosenAccessModeTags ==> t < |Ledger(db, TagKind)| || (x.kind == TagKind && t == |Ledger(db, x.kind)|)
    ensures var r := CreateAndSync(db, x, cursors, server, accepts);
      r.Applied? && forall u :: u in r.cursors.chosenAccessModeTags ==> u < |Ledger(r.db, TagKind)|
  {
    AddSettlesLedger(db, x, cursors, server, accepts, R);
    AddSettlesCursors(db, x, cursors, server, accepts, R);
    var r := CreateAndSync(db, x, cursors, server, accepts);
    if x.kind != TagKind {
      assert Ledger(r.db, TagKind) == Ledger(db, TagKind);
    }
  }

  /** The two fetches the tag scenario answers return the entities numbered at their slots. */
  lemma TwoTagFetchesInPlace(server: Server)
    requires server(Get(At(TagKind, 2))) == Some(ReturnedItem(Entity(TagKind, 2, "two")))
    requires server(Get(At(TagKind, 3))) == Some(ReturnedItem(Entity(TagKind, 3, "three")))
    ensures FetchesInPlace(server, TagKind, 2, 4)
  {
    forall i | 2 <= i < 4 && Answer(server, TagKind, i).Some? && Answer(server, TagKind, i).value.ReturnedItem?
      ensures var y := Answer(server, TagKind, i).value.item; y.Entity? && y.kind == TagKind && y.id >= i
    {
      if i == 2 {
      } else {
        assert i == 3;
      }
    }
  }

  /**
   * Two tags exist, the new tag is provisionally `Tag(2)`, the store numbers
   * it `Tag(4)` and returns the two tags created elsewhere: the ledger ends
   * with five tags and a parent-tag choice of 2 becomes 4.
   */
  lemma TagConflictScenario(db: Db, x: Item, cursors: UserCursors, server: Server, accepts: Verdict)
    requires x.Entity? && x.kind == TagKind && |db.tags| == 2
    requires server(Add(SetId(x, At(TagKind, 2)))) == Some(AddedItem(At(TagKind, 4)))
    requires server(Get(At(TagKind, 2))) == Some(ReturnedItem(Entity(TagKind, 2, "two")))
    requires server(Get(At(TagKind, 3))) == Some(ReturnedItem(Entity(TagKind, 3, "three")))
    requires cursors.chosenParentTag == Some(2)
    ensures var r := CreateAndSync(db, x, cursors, server, accepts);
      r.Applied? && |r.db.tags| == 5 && r.cursors.chosenParentTag == Some(4)
      && r.db.tags[2..] == [Entity(TagKind, 2, "two"), Entity(TagKind, 3, "three"), SetId(x, At(TagKind, 4))]
  {
    TwoTagFetchesInPlace(server);
    assert SettlesAt(db, x, server, 4);
    var d := GetDeltaForAdd(NextId(db, x), x, server);
    SettledMerges(db, x, cursors, server, accepts, 4);
    TagConflictTags(db, x, server);
    AddSettlesCursors(db, x, cursors, server, accepts, 4);
    var r := CreateAndSync(db, x, cursors, server, accepts);
    assert r.db.tags == Ledger(r.db, TagKind) == db.tags + Items(d.delta) + [d.item];
    assert Cursor(cursors, ChosenParentTag) == Some(2);
    assert Cursor(r.cursors, ChosenParentTag) == Some(4);
  }

  /** The tag ledger the two-tag scenario builds, before it is read back from the transition. */
  lemma TagConflictTags(db: Db, x: Item, server: Server)
    requires x.Entity? && x.kind == TagKind && |db.tags| == 2
    requires server(Add(SetId(x, At(TagKind, 2)))) == Some(AddedItem(At(TagKind, 4)))
    requires server(Get(At(TagKind, 2))) == Some(ReturnedItem(Entity(TagKind, 2, "two")))
    requires server(Get(At(TagKind, 3))) == Some(ReturnedItem(Entity(TagKind, 3, "three")))
    ensures var d := GetDeltaForAdd(NextId(db, x), x, server);
      var s := db.tags + Items(d.delta) + [d.item];
      |s| == 5 && s[2..] == [Entity(TagKind, 2, "two"), Entity(TagKind, 3, "three"), SetId(x, At(TagKind, 4))]
  {
    TwoTagFetchesInPlace(server);
    assert SettlesAt(db, x, server, 4);
    SettledShape(db, x, server, 4);
    var d := GetDeltaForAdd(NextId(db, x), x, server);
    var s := db.tags + Items(d.delta) + [d.item];
    assert s[2] == FetchOr(server, At(TagKind, 2), SetId(x, At(TagKind, 4)));
    assert s[3] == FetchOr(server, At(TagKind, 3), SetId(x, At(TagKind, 4)));
    assert s[2..] == [s[2], s[3], s[4]];
  }

}
