/**
 * `apply_server_updates`: merging a batch of `(identifier, item)` updates into
 * the client ledgers and shifting the cursors that a rejected overwrite
 * displaces.
 *
 * The source walks the batch once, updating the ledgers and the cursors side
 * by side. The cursor writes never influence the ledger, so the model splits
 * the walk into a ledger pass, which records the rejected overwrites in order,
 * and a cursor pass over those rejections.
 */
module Updates {
  import opened Wrappers
  import opened Backend
  import opened Cursors

  /** An in-range overwrite of category `kind` at `pos` that `insert_or_update` rejected. */
  datatype Rejection = Rejection(kind: Kind, pos: nat)

  datatype Step = Step(db: Db, rejected: Option<Rejection>)

  datatype LedgerOutcome = LedgerOutcome(db: Db, rejected: seq<Rejection>)

  datatype Synced = Synced(db: Db, cursors: UserCursors)

  /** Some update of the batch carries an entity of category `k`. */
  ghost predicate Mentions(updates: seq<(ItemId, Item)>, k: Kind) {
    exists i :: 0 <= i < |updates| && updates[i].1.Entity? && updates[i].1.kind == k
  }

  /** The items of a batch, in order. */
  function Items(updates: seq<(ItemId, Item)>): (r: seq<Item>)
    ensures |r| == |updates|
    ensures forall j {:trigger r[j]} :: 0 <= j < |r| ==> r[j] == updates[j].1
    decreases |updates|
  {
    if |updates| == 0 then [] else [updates[0].1] + Items(updates[1..])
  }

  /**
   * One update, as far as the ledgers go. The branch is chosen by the item's
   * own identifier: at or past the end of its ledger it is pushed; inside it
   * goes through `insert_or_update`. The user data is simply replaced.
   */
  function StepLedger(db: Db, item: Item, accepts: Verdict): (r: Step)
    ensures item.UserDataItem? ==> r == Step(db.(userData := item.data), None)
    ensures item.Entity? && item.id >= |Ledger(db, item.kind)| ==> r == Step(Push(db, item), None)
    ensures r.rejected.Some? <==> item.Entity? && item.id < |Ledger(db, item.kind)| && !accepts(db, item)
    ensures r.rejected.Some? ==> r.rejected.value == Rejection(item.kind, item.id)
    ensures item.Entity? ==> forall k :: k != item.kind ==> Ledger(r.db, k) == Ledger(db, k)
  {
    match item
    case UserDataItem(data) => Step(db.(userData := data), None)
    case Entity(k, p, _) =>
      if p >= |Ledger(db, k)| then Step(Push(db, item), None)
      else
        var replaced := accepts(db, item);
        Step(InsertOrUpdate(db, item, replaced), if replaced then None else Some(Rejection(k, p)))
  }

  /**
   * One merge grows the item's ledger by one exactly when it pushes or inserts
   * a rejected overwrite; an accepted overwrite keeps its length.
   */
  lemma StepLedgerGrowth(db: Db, item: Item, accepts: Verdict)
    requires item.Entity?
    ensures var r := StepLedger(db, item, accepts);
      |Ledger(r.db, item.kind)| ==
      |Ledger(db, item.kind)| + if item.id >= |Ledger(db, item.kind)| || r.rejected.Some? then 1 else 0
  {
  }

  lemma MentionsTail(updates: seq<(ItemId, Item)>, k: Kind)
    requires |updates| > 0
    ensures Mentions(updates, k) <==> (updates[0].1.Entity? && updates[0].1.kind == k) || Mentions(updates[1..], k)
  {
    if Mentions(updates[1..], k) {
      var i :| 0 <= i < |updates[1..]| && updates[1..][i].1.Entity? && updates[1..][i].1.kind == k;
      assert updates[i + 1] == updates[1..][i];
    }
    if Mentions(updates, k) && !(updates[0].1.Entity? && updates[0].1.kind == k) {
      var i :| 0 <= i < |updates| && updates[i].1.Entity? && updates[i].1.kind == k;
      assert updates[1..][i - 1] == updates[i];
    }
  }

  /** The ledger side of the batch walk: the database after it, and its rejected overwrites in order. */
  function LedgerPass(db: Db, updates: seq<(ItemId, Item)>, accepts: Verdict): LedgerOutcome
    decreases |updates|
  {
    if |updates| == 0 then LedgerOutcome(db, [])
    else
      var step := StepLedger(db, updates[0].1, accepts);
      var rest := LedgerPass(step.db, updates[1..], accepts);
      LedgerOutcome(rest.db, (if step.rejected.Some? then [step.rejected.value] else []) + rest.rejected)
  }

  /**
   * A batch leaves alone the ledger of every category no update mentions,
   * and the user data when no update carries it, and records rejections only
   * for categories some update mentions.
   */
  lemma {:induction false} LedgerPassFrame(db: Db, updates: seq<(ItemId, Item)>, accepts: Verdict)
    ensures var r := LedgerPass(db, updates, accepts);
      && (forall k :: !Mentions(updates, k) ==> Ledger(r.db, k) == Ledger(db, k))
      && ((forall j :: 0 <= j < |updates| ==> updates[j].1.Entity?) ==> r.db.userData == db.userData)
      && (forall j :: 0 <= j < |r.rejected| ==> Mentions(updates, r.rejected[j].kind))
    decreases |updates|
  {
    if |updates| > 0 {
      var step := StepLedger(db, updates[0].1, accepts);
      LedgerPassFrame(step.db, updates[1..], accepts);
      forall k ensures Mentions(updates, k) <==> (updates[0].1.Entity? && updates[0].1.kind == k) || Mentions(updates[1..], k) {
        MentionsTail(updates, k);
      }
    }
  }

  /** Some rejection of category `k` was at a position no greater than `p`. */
  ghost predicate Hit(rejected: seq<Rejection>, k: Kind, p: nat) {
    exists j :: 0 <= j < |rejected| && rejected[j].kind == k && rejected[j].pos <= p
  }

  lemma HitTail(rejected: seq<Rejection>)
    requires |rejected| > 0
    ensures forall k, p :: Hit(rejected, k, p) <==> (rejected[0].kind == k && rejected[0].pos <= p) || Hit(rejected[1..], k, p)
  {
    forall k, p ensures Hit(rejected, k, p) <==> (rejected[0].kind == k && rejected[0].pos <= p) || Hit(rejected[1..], k, p) {
      if Hit(rejected[1..], k, p) {
        var j :| 0 <= j < |rejected[1..]| && rejected[1..][j].kind == k && rejected[1..][j].pos <= p;
        assert rejected[j + 1] == rejected[1..][j];
      }
      if Hit(rejected, k, p) && !(rejected[0].kind == k && rejected[0].pos <= p) {
        var j :| 0 <= j < |rejected| && rejected[j].kind == k && rejected[j].pos <= p;
        assert rejected[1..][j - 1] == rejected[j];
      }
    }
  }

  /** The number of rejections of category `k` at a position no greater than `p`. */
  function Count(rejected: seq<Rejection>, k: Kind, p: nat): (n: nat)
    ensures n <= |rejected|
    ensures n > 0 <==> Hit(rejected, k, p)
    decreases |rejected|
  {
    if |rejected| == 0 then 0
    else
      HitTail(rejected);
      (if rejected[0].kind == k && rejected[0].pos <= p then 1 else 0) + Count(rejected[1..], k, p)
  }

  /** The position of the last rejection of category `k`, if any. */
  function LastPos(rejected: seq<Rejection>, k: Kind): (r: Option<nat>)
    ensures r.Some? <==> exists j :: 0 <= j < |rejected| && rejected[j].kind == k
    ensures r.Some? ==> exists j :: 0 <= j < |rejected| && rejected[j] == Rejection(k, r.value)
                                    && forall i :: j < i < |rejected| ==> rejected[i].kind != k
    decreases |rejected|
  {
    if |rejected| == 0 then None
    else
      var later := LastPos(rejected[1..], k);
      assert forall i :: 1 <= i < |rejected| ==> rejected[i] == rejected[1..][i - 1];
      if later.Some? then later
      else if rejected[0].kind == k then Some(rejected[0].pos)
      else None
  }

  /**
   * The cursor side of the batch walk: each rejection applied to the running
   * cursors `acc`, every shift computed from `orig`. An optional cursor
   * therefore ends one past its original value exactly when some rejection of
   * its category was at or below it, however many there were; the chosen
   * access mode instead gains one per access-mode rejection at or below its
   * original value; the access-mode tag set is the one the last tag rejection
   * computed.
   */
  function CursorPass(orig: UserCursors, acc: UserCursors, rejected: seq<Rejection>): (r: UserCursors)
    ensures forall f :: f != ChosenAccessMode ==>
              Cursor(r, f) == (
                if Cursor(orig, f).Some? && Hit(rejected, FieldKind(f), Cursor(orig, f).value)
                then Some(Cursor(orig, f).value + 1)
                else Cursor(acc, f))
    ensures r.chosenAccessMode == acc.chosenAccessMode + Count(rejected, AccessModeKind, orig.chosenAccessMode)
    ensures r.chosenAccessModeTags ==
      if LastPos(rejected, TagKind).Some?
      then ShiftSet(orig.chosenAccessModeTags, LastPos(rejected, TagKind).value)
      else acc.chosenAccessModeTags
    ensures SameUnsynced(r, acc)
    decreases |rejected|
  {
    if |rejected| == 0 then acc
    else
      HitTail(rejected);
      CursorPass(orig, OnReject(orig, acc, rejected[0].kind, rejected[0].pos), rejected[1..])
  }

  /**
   * `apply_server_updates`. The items are merged in order. Each optional
   * cursor of a category that had an overwrite rejected at or below it moves
   * up by exactly one from the value the batch received, whatever the number
   * of rejections; the chosen access mode moves up by the number of rejected
   * access-mode overwrites at or below it; cursors of other categories and the
   * tab, tag filter and setting cursors are returned as received.
   */
  function ApplyServerUpdates(db: Db, updates: seq<(ItemId, Item)>, cursors: UserCursors, accepts: Verdict): (r: Synced)
    ensures var pass := LedgerPass(db, updates, accepts);
      && r.db == pass.db
      && (forall f :: f != ChosenAccessMode ==>
            Cursor(r.cursors, f) == (
              if Cursor(cursors, f).Some? && Hit(pass.rejected, FieldKind(f), Cursor(cursors, f).value)
              then Some(Cursor(cursors, f).value + 1)
              else Cursor(cursors, f)))
      && r.cursors.chosenAccessMode == cursors.chosenAccessMode + Count(pass.rejected, AccessModeKind, cursors.chosenAccessMode)
      && r.cursors.chosenAccessModeTags ==
           (if LastPos(pass.rejected, TagKind).Some?
            then ShiftSet(cursors.chosenAccessModeTags, LastPos(pass.rejected, TagKind).value)
            else cursors.chosenAccessModeTags)
      && SameUnsynced(r.cursors, cursors)
  {
    var pass := LedgerPass(db, updates, accepts);
    Synced(pass.db, CursorPass(cursors, cursors, pass.rejected))
  }
}
