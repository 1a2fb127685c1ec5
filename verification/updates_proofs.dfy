/** Properties of `apply_server_updates` that relate it to its ledgers and cursors. */
module UpdatesProofs {
  import opened Wrappers
  import opened Backend
  import opened Cursors
  import opened Updates

  /** The categories none of whose cursors synchronisation ever moves. */
  predicate CursorFree(item: Item) {
    item.UserDataItem? || item.kind in {DeviceKind, FileKind, FolderKind}
  }

  /**
   * A run of items of category `k`, each numbered at least at the slot it
   * would be pushed to, is pushed item by item: the ledger grows by exactly
   * those items, nothing is rejected and nothing else in the database changes.
   */
  lemma {:induction false} AppendRun(db: Db, k: Kind, updates: seq<(ItemId, Item)>, accepts: Verdict)
    requires forall j :: 0 <= j < |updates| ==>
      updates[j].1.Entity? && updates[j].1.kind == k && updates[j].1.id >= |Ledger(db, k)| + j
    ensures LedgerPass(db, updates, accepts) == LedgerOutcome(WithLedger(db, k, Ledger(db, k) + Items(updates)), [])
    decreases |updates|
  {
    if |updates| == 0 {
      WithOwnLedger(db, k);
    } else {
      var db1 := WithLedger(db, k, Ledger(db, k) + [updates[0].1]);
      assert LedgerPass(db, updates, accepts) == LedgerPass(db1, updates[1..], accepts) by {
        PushedFirst(db, updates, accepts);
      }
      RunTailNumbered(db, k, updates);
      AppendRun(db1, k, updates[1..], accepts);
      AppendRunStep(db, k, updates);
    }
  }

  /** The rest of a run numbered for `db` is numbered for `db` with the run's first item pushed. */
  lemma RunTailNumbered(db: Db, k: Kind, updates: seq<(ItemId, Item)>)
    requires |updates| > 0
    requires forall j :: 0 <= j < |updates| ==>
      updates[j].1.Entity? && updates[j].1.kind == k && updates[j].1.id >= |Ledger(db, k)| + j
    ensures var db1, rest := WithLedger(db, k, Ledger(db, k) + [updates[0].1]), updates[1..];
      forall j :: 0 <= j < |rest| ==>
        rest[j].1.Entity? && rest[j].1.kind == k && rest[j].1.id >= |Ledger(db1, k)| + j
  {
    var db1, rest := WithLedger(db, k, Ledger(db, k) + [updates[0].1]), updates[1..];
    forall j | 0 <= j < |rest|
      ensures rest[j].1.Entity? && rest[j].1.kind == k && rest[j].1.id >= |Ledger(db1, k)| + j
    {
      assert rest[j] == updates[j + 1];
    }
  }

  /** Pushing the first item of a run and then the rest leaves the database pushing the whole run leaves. */
  lemma AppendRunStep(db: Db, k: Kind, updates: seq<(ItemId, Item)>)
    requires |updates| > 0
    ensures var db1 := WithLedger(db, k, Ledger(db, k) + [updates[0].1]);
      WithLedger(db1, k, Ledger(db1, k) + Items(updates[1..])) == WithLedger(db, k, Ledger(db, k) + Items(updates))
  {
    var first, rest := updates[0].1, updates[1..];
    var s0 := Ledger(db, k);
    assert s0 + [first] + Items(rest) == s0 + Items(updates) by {
      assert Items(updates) == [first] + Items(rest);
    }
    WithLedgerTwice(db, k, s0 + [first], s0 + Items(updates));
  }

  /** A batch whose first item lands at or past the end of its ledger continues from the pushed database. */
  lemma PushedFirst(db: Db, updates: seq<(ItemId, Item)>, accepts: Verdict)
    requires |updates| > 0 && updates[0].1.Entity? && updates[0].1.id >= |Ledger(db, updates[0].1.kind)|
    ensures LedgerPass(db, updates, accepts) == LedgerPass(WithLedger(db, updates[0].1.kind, Ledger(db, updates[0].1.kind) + [updates[0].1]), updates[1..], accepts)
  {
    assert StepLedger(db, updates[0].1, accepts) == Step(Push(db, updates[0].1), None);
  }

  /** An item at or past the end of its ledger is pushed and moves no cursor. */
  lemma AppendMovesNoCursor(db: Db, id: ItemId, item: Item, cursors: UserCursors, accepts: Verdict)
    requires item.Entity? && item.id >= |Ledger(db, item.kind)|
    ensures ApplyServerUpdates(db, [(id, item)], cursors, accepts) == Synced(Push(db, item), cursors)
  {
    var pass := LedgerPass(db, [(id, item)], accepts);
    AppendRun(db, item.kind, [(id, item)], accepts);
    assert pass.db == Push(db, item);
  }

  /**
   * The branch is chosen by the item's own identifier: the identifier paired
   * with it in the batch is never read.
   */
  lemma PairedIdIgnored(db: Db, updates: seq<(ItemId, Item)>, other: seq<(ItemId, Item)>,
                         cursors: UserCursors, accepts: Verdict)
    requires Items(updates) == Items(other)
    ensures ApplyServerUpdates(db, updates, cursors, accepts) == ApplyServerUpdates(db, other, cursors, accepts)
  {
    assert LedgerPass(db, updates, accepts) == LedgerPass(db, other, accepts) by {
      LedgerPassPairedIdIgnored(db, updates, other, accepts);
    }
  }

  lemma {:induction false} LedgerPassPairedIdIgnored(db: Db, updates: seq<(ItemId, Item)>, other: seq<(ItemId, Item)>,
                                                    accepts: Verdict)
    requires Items(updates) == Items(other)
    ensures LedgerPass(db, updates, accepts) == LedgerPass(db, other, accepts)
    decreases |updates|
  {
    assert |updates| == |Items(updates)| == |other|;
    if |updates| > 0 {
      assert updates[0].1 == Items(updates)[0] == other[0].1;
      var step := StepLedger(db, updates[0].1, accepts);
      assert Items(updates[1..]) == Items(other[1..]) by {
        forall j | 0 <= j < |updates| - 1 ensures Items(updates[1..])[j] == Items(other[1..])[j] {
          assert Items(updates)[j + 1] == Items(other)[j + 1];
        }
      }
      LedgerPassPairedIdIgnored(step.db, updates[1..], other[1..], accepts);
    }
  }

  /**
   * Device, file, folder and user-data updates never move a cursor: a batch
   * made only of them returns the cursors it received.
   */
  lemma CursorFreeBatch(db: Db, updates: seq<(ItemId, Item)>, cursors: UserCursors, accepts: Verdict)
    requires forall i :: 0 <= i < |updates| ==> CursorFree(updates[i].1)
    ensures ApplyServerUpdates(db, updates, cursors, accepts).cursors == cursors
  {
    var pass := LedgerPass(db, updates, accepts);
    var r := ApplyServerUpdates(db, updates, cursors, accepts);
    LedgerPassFrame(db, updates, accepts);
    forall j | 0 <= j < |pass.rejected|
      ensures pass.rejected[j].kind in {DeviceKind, FileKind, FolderKind}
    {
      assert Mentions(updates, pass.rejected[j].kind);
    }
    forall f ensures Cursor(r.cursors, f) == Cursor(cursors, f) {
    }
    assert Cursor(r.cursors, ChosenAccessMode) == Cursor(cursors, ChosenAccessMode);
    assert Cursor(r.cursors, AccessModeForModification) == Cursor(cursors, AccessModeForModification);
    assert Cursor(r.cursors, ChosenChat) == Cursor(cursors, ChosenChat);
    assert Cursor(r.cursors, ChosenTag) == Cursor(cursors, ChosenTag);
    assert Cursor(r.cursors, ChosenParentTag) == Cursor(cursors, ChosenParentTag);
    assert Cursor(r.cursors, ChosenConfig) == Cursor(cursors, ChosenConfig);
    assert Cursor(r.cursors, ConfigForModification) == Cursor(cursors, ConfigForModification);
  }

  /** A batch of one rejected in-range overwrite inserts the item and records that one rejection. */
  lemma SingleRejection(db: Db, id: ItemId, item: Item, accepts: Verdict)
    requires item.Entity? && item.id < |Ledger(db, item.kind)| && !accepts(db, item)
    ensures LedgerPass(db, [(id, item)], accepts) == LedgerOutcome(InsertOrUpdate(db, item, false), [Rejection(item.kind, item.id)])
  {
    var updates := [(id, item)];
    var step := StepLedger(db, item, accepts);
    assert step == Step(InsertOrUpdate(db, item, false), Some(Rejection(item.kind, item.id)));
    assert updates[1..] == [];
  }

  /**
   * One rejected overwrite at `p` moves each cursor of its category as
   * `Shifted` moves it, and shifts the whole access-mode tag set when the
   * item is a tag; cursors of other categories stay where they were.
   */
  lemma SingleRejectionCursors(db: Db, id: ItemId, item: Item, cursors: UserCursors, accepts: Verdict)
    requires item.Entity? && item.id < |Ledger(db, item.kind)| && !accepts(db, item)
    ensures var r := ApplyServerUpdates(db, [(id, item)], cursors, accepts);
      && (forall f :: Cursor(cursors, f).Some? ==>
            Cursor(r.cursors, f) == if FieldKind(f) == item.kind then Some(Shifted(Cursor(cursors, f).value, item.id)) else Cursor(cursors, f))
      && r.cursors.chosenAccessModeTags ==
           (if item.kind == TagKind then ShiftSet(cursors.chosenAccessModeTags, item.id) else cursors.chosenAccessModeTags)
  {
    var rejected := [Rejection(item.kind, item.id)];
    SingleRejection(db, id, item, accepts);
    assert rejected[1..] == [];
    assert LastPos(rejected, TagKind) == if item.kind == TagKind then Some(item.id) else None;
    assert Count(rejected, AccessModeKind, cursors.chosenAccessMode) ==
           if item.kind == AccessModeKind && item.id <= cursors.chosenAccessMode then 1 else 0;
    forall f | Cursor(cursors, f).Some?
      ensures Hit(rejected, FieldKind(f), Cursor(cursors, f).value) <==> FieldKind(f) == item.kind && Cursor(cursors, f).value >= item.id
    {
      if FieldKind(f) == item.kind && Cursor(cursors, f).value >= item.id {
        assert rejected[0].kind == FieldKind(f) && rejected[0].pos <= Cursor(cursors, f).value;
      }
    }
  }

  /**
   * Under the assumed reading of a rejected overwrite (the item is inserted
   * before the one at its position), the shift keeps every cursor of that
   * category, and every selected tag, on the item it selected before.
   */
  lemma RejectedInsertKeepsSelection(db: Db, id: ItemId, item: Item, cursors: UserCursors, accepts: Verdict)
    requires item.Entity? && item.id < |Ledger(db, item.kind)| && !accepts(db, item)
    ensures var r := ApplyServerUpdates(db, [(id, item)], cursors, accepts);
      var before, after := Ledger(db, item.kind), Ledger(r.db, item.kind);
      && |after| == |before| + 1
      && after[item.id] == item
      && (forall f :: FieldKind(f) == item.kind && Cursor(cursors, f).Some? && Cursor(cursors, f).value < |before| ==>
            Cursor(r.cursors, f) == Some(Shifted(Cursor(cursors, f).value, item.id))
            && after[Shifted(Cursor(cursors, f).value, item.id)] == before[Cursor(cursors, f).value])
      && (item.kind == TagKind ==> forall t :: t in cursors.chosenAccessModeTags && t < |before| ==>
            Shifted(t, item.id) in r.cursors.chosenAccessModeTags && after[Shifted(t, item.id)] == before[t])
  {
    SingleRejection(db, id, item, accepts);
    SingleRejectionCursors(db, id, item, cursors, accepts);
    var before := Ledger(db, item.kind);
    var after := before[..item.id] + [item] + before[item.id..];
    assert Ledger(InsertOrUpdate(db, item, false), item.kind) == after;
    assert forall t :: 0 <= t < |before| ==> after[Shifted(t, item.id)] == before[t];
  }

  /**
   * The chosen access mode moves once per rejected access-mode overwrite at or
   * below it, while the access mode under modification moves once in all: two
   * such rejections move the first by two and the second by one.
   */
  lemma AccessModeShiftsAccumulate(cursors: UserCursors, p: nat, q: nat, m: nat)
    requires p <= cursors.chosenAccessMode && q <= cursors.chosenAccessMode
    requires cursors.accessModeForModification == Some(m) && p <= m && q <= m
    ensures var r := CursorPass(cursors, cursors, [Rejection(AccessModeKind, p), Rejection(AccessModeKind, q)]);
      r.chosenAccessMode == cursors.chosenAccessMode + 2 && r.accessModeForModification == Some(m + 1)
  {
    var rejected := [Rejection(AccessModeKind, p), Rejection(AccessModeKind, q)];
    assert rejected[1..][1..] == [];
    assert rejected[0].kind == AccessModeKind && rejected[0].pos <= m;
    assert Cursor(cursors, AccessModeForModification) == Some(m);
  }

  lemma {:induction false} CountAppend(a: seq<Rejection>, b: seq<Rejection>, k: Kind, p: nat)
    ensures Count(a + b, k, p) == Count(a, k, p) + Count(b, k, p)
    decreases |a|
  {
    if |a| > 0 {
      assert (a + b)[1..] == a[1..] + b;
      CountAppend(a[1..], b, k, p);
    } else {
      assert a + b == b;
    }
  }

  /**
   * No merge shrinks a ledger, and each rejected overwrite inserts into its
   * category's ledger: a batch grows the ledger of `k` by at least the number
   * of rejections of `k` it records.
   */
  lemma {:induction false} LedgerPassGrowth(db: Db, updates: seq<(ItemId, Item)>, accepts: Verdict, k: Kind, p: nat)
    ensures var pass := LedgerPass(db, updates, accepts);
      |Ledger(pass.db, k)| >= |Ledger(db, k)| + Count(pass.rejected, k, p)
    decreases |updates|
  {
    if |updates| > 0 {
      var item := updates[0].1;
      var step := StepLedger(db, item, accepts);
      var rest := LedgerPass(step.db, updates[1..], accepts);
      var head := if step.rejected.Some? then [step.rejected.value] else [];
      LedgerPassGrowth(step.db, updates[1..], accepts, k, p);
      assert |Ledger(step.db, k)| >= |Ledger(db, k)| + Count(head, k, p) by {
        if item.Entity? {
          StepLedgerGrowth(db, item, accepts);
        }
      }
      CountAppend(head, rest.rejected, k, p);
    }
  }

  /**
   * `apply_server_updates` never leaves a cursor dangling that it received in
   * range: every cursor below its ledger's length, and every selected tag when
   * all were in range, is below the new length afterwards.
   */
  lemma SyncKeepsCursorsInRange(db: Db, updates: seq<(ItemId, Item)>, cursors: UserCursors, accepts: Verdict)
    ensures var r := ApplyServerUpdates(db, updates, cursors, accepts);
      && (forall f :: Cursor(cursors, f).Some? && Cursor(cursors, f).value < |Ledger(db, FieldKind(f))| ==>
            Cursor(r.cursors, f).Some? && Cursor(r.cursors, f).value < |Ledger(r.db, FieldKind(f))|)
      && ((forall t :: t in cursors.chosenAccessModeTags ==> t < |Ledger(db, TagKind)|) ==>
            forall u :: u in r.cursors.chosenAccessModeTags ==> u < |Ledger(r.db, TagKind)|)
  {
    var pass := LedgerPass(db, updates, accepts);
    var r := ApplyServerUpdates(db, updates, cursors, accepts);
    forall f | Cursor(cursors, f).Some? && Cursor(cursors, f).value < |Ledger(db, FieldKind(f))|
      ensures Cursor(r.cursors, f).Some? && Cursor(r.cursors, f).value < |Ledger(r.db, FieldKind(f))|
    {
      LedgerPassGrowth(db, updates, accepts, FieldKind(f), Cursor(cursors, f).value);
    }
    if forall t :: t in cursors.chosenAccessModeTags ==> t < |Ledger(db, TagKind)| {
      var last := LastPos(pass.rejected, TagKind);
      if last.Some? {
        LedgerPassGrowth(db, updates, accepts, TagKind, last.value);
        assert Hit(pass.rejected, TagKind, last.value);
        forall u | u in r.cursors.chosenAccessModeTags
          ensures u < |Ledger(r.db, TagKind)|
        {
          var t :| t in cursors.chosenAccessModeTags && u == Shifted(t, last.value);
        }
      } else {
        LedgerPassGrowth(db, updates, accepts, TagKind, 0);
      }
    }
  }
}
