/**
 * The UI's selection state (`UserCursors`): positions into the ledgers that
 * the synchronisation code keeps pointing at the right items.
 */
module Cursors {
  import opened Wrappers
  import opened Backend

  /** A chat setting being edited; its contents are not modelled. */
  type Setting = seq<char>

  datatype UserCursors = UserCursors(
    chosenTab: nat,
    chosenChat: Option<nat>,
    chosenAccessMode: nat,
    accessModeForModification: Option<nat>,
    chosenTag: Option<nat>,
    chosenTags: set<nat>,
    chosenParentTag: Option<nat>,
    chosenConfig: Option<nat>,
    configForModification: Option<nat>,
    chosenSetting: Option<nat>,
    settingForModification: Option<Setting>,
    chosenAccessModeTags: set<nat>)

  /** The single-position cursors that point into a ledger, each with the category it points into. */
  datatype CursorField =
    | ChosenAccessMode
    | AccessModeForModification
    | ChosenChat
    | ChosenTag
    | ChosenParentTag
    | ChosenConfig
    | ConfigForModification

  function FieldKind(f: CursorField): Kind {
    match f
    case ChosenAccessMode => AccessModeKind
    case AccessModeForModification => AccessModeKind
    case ChosenChat => ChatKind
    case ChosenTag => TagKind
    case ChosenParentTag => TagKind
    case ChosenConfig => ConfigKind
    case ConfigForModification => ConfigKind
  }

  /** The value of a cursor; the always-present access-mode choice reads as `Some`. */
  function Cursor(c: UserCursors, f: CursorField): Option<nat> {
    match f
    case ChosenAccessMode => Some(c.chosenAccessMode)
    case AccessModeForModification => c.accessModeForModification
    case ChosenChat => c.chosenChat
    case ChosenTag => c.chosenTag
    case ChosenParentTag => c.chosenParentTag
    case ChosenConfig => c.chosenConfig
    case ConfigForModification => c.configForModification
  }

  /** The cursors that synchronisation never writes: the tab, the tag filter and the setting under edit. */
  predicate SameUnsynced(c: UserCursors, d: UserCursors) {
    && c.chosenTab == d.chosenTab
    && c.chosenTags == d.chosenTags
    && c.chosenSetting == d.chosenSetting
    && c.settingForModification == d.settingForModification
  }

  /** `UserCursors::zero`: the selection state of a fresh session. */
  function Zero(): (c: UserCursors)
    ensures forall f :: Cursor(c, f) == if f == ChosenAccessMode then Some(0) else None
    ensures c.chosenTab == 0 && c.chosenSetting == None && c.settingForModification == None
    ensures c.chosenTags == {} && c.chosenAccessModeTags == {}
  {
    UserCursors(0, None, 0, None, None, {}, None, None, None, None, None, {})
  }

  /** `UserCursors::from_state`: rebuild the cursors from the UI's separate pieces of state. */
  function FromState(
    tab: nat,
    chat: Option<nat>,
    accessMode: nat,
    accessModeForModification: Option<nat>,
    tag: Option<nat>,
    parentTag: Option<nat>,
    config: Option<nat>,
    setting: Option<nat>,
    configForModification: Option<nat>,
    accessModeTags: set<nat>): UserCursors
  {
    UserCursors(tab, chat, accessMode, accessModeForModification, tag, {}, parentTag,
                config, configForModification, setting, None, accessModeTags)
  }

  /** Where an item at position `t` ends up once another item is inserted at `pos`. */
  function Shifted(t: nat, pos: nat): nat {
    if t >= pos then t + 1 else t
  }

  /** The inverse of `Shifted` for positions other than `pos`. */
  function Unshifted(u: nat, pos: nat): nat {
    if u > pos then u - 1 else u
  }

  /** Every member of a tag set moved as `Shifted` moves it. */
  function ShiftSet(s: set<nat>, pos: nat): set<nat> {
    set t | t in s :: Shifted(t, pos)
  }

  function UnshiftSet(s: set<nat>, pos: nat): set<nat> {
    set u | u in s :: Unshifted(u, pos)
  }

  /**
   * A shift after a rejected overwrite never merges two selected tags and never
   * selects the position the inserted item took.
   */
  lemma ShiftSetLosesNothing(s: set<nat>, pos: nat)
    ensures UnshiftSet(ShiftSet(s, pos), pos) == s
    ensures pos !in ShiftSet(s, pos)
  {
    forall t | t in s
      ensures t in UnshiftSet(ShiftSet(s, pos), pos)
    {
      assert Shifted(t, pos) in ShiftSet(s, pos);
      assert Unshifted(Shifted(t, pos), pos) == t;
    }
  }

  /**
   * The write the source makes to one cursor when an overwrite at `pos` is
   * rejected: computed from `orig`, the cursor as the batch received it; when
   * that was below `pos`, the running value `cur` stands.
   */
  function Bump(orig: Option<nat>, cur: Option<nat>, pos: nat): Option<nat> {
    if orig.Some? && orig.value >= pos then Some(orig.value + 1) else cur
  }

  /**
   * The effect on the running cursors `acc` of an overwrite at position `pos`
   * of category `k` that was rejected; `orig` are the cursors the batch
   * started with. Every optional cursor is set from its value in `orig`; the
   * chosen access mode alone is incremented in place, so it moves once per
   * such rejection.
   */
  function OnReject(orig: UserCursors, acc: UserCursors, k: Kind, pos: nat): (r: UserCursors)
    ensures forall f :: f != ChosenAccessMode ==>
              Cursor(r, f) == if FieldKind(f) == k then Bump(Cursor(orig, f), Cursor(acc, f), pos) else Cursor(acc, f)
    ensures r.chosenAccessMode ==
              if k == AccessModeKind && orig.chosenAccessMode >= pos then acc.chosenAccessMode + 1 else acc.chosenAccessMode
    ensures r.chosenAccessModeTags == if k == TagKind then ShiftSet(orig.chosenAccessModeTags, pos) else acc.chosenAccessModeTags
    ensures SameUnsynced(r, acc)
  {
    match k
    case AccessModeKind =>
      acc.(accessModeForModification := Bump(orig.accessModeForModification, acc.accessModeForModification, pos),
           chosenAccessMode := if orig.chosenAccessMode >= pos then acc.chosenAccessMode + 1 else acc.chosenAccessMode)
    case ChatKind =>
      acc.(chosenChat := Bump(orig.chosenChat, acc.chosenChat, pos))
    case TagKind =>
      acc.(chosenTag := Bump(orig.chosenTag, acc.chosenTag, pos),
           chosenParentTag := Bump(orig.chosenParentTag, acc.chosenParentTag, pos),
           chosenAccessModeTags := ShiftSet(orig.chosenAccessModeTags, pos))
    case ConfigKind =>
      acc.(chosenConfig := Bump(orig.chosenConfig, acc.chosenConfig, pos),
           configForModification := Bump(orig.configForModification, acc.configForModification, pos))
    case _ => acc
  }

  /** A fresh session is the state `from_state` builds from all-empty pieces. */
  lemma ZeroIsFromState()
    ensures Zero() == FromState(0, None, 0, None, None, None, None, None, None, {})
  {
  }

  /**
   * `from_state` rebuilds every cursor it takes: it loses only the tag filter
   * and the setting under edit.
   */
  lemma FromStateRoundTrip(c: UserCursors)
    ensures var d := FromState(c.chosenTab, c.chosenChat, c.chosenAccessMode, c.accessModeForModification,
                               c.chosenTag, c.chosenParentTag, c.chosenConfig, c.chosenSetting,
                               c.configForModification, c.chosenAccessModeTags);
            d == c.(chosenTags := {}, settingForModification := None)
  {
  }
}
