/**
 * The storage backend the synchronisation code is written against: item
 * identifiers, items, the per-category ledgers of the client database, the
 * request/reply vocabulary of the remote store, and the few primitives the
 * synchronisation code calls. The backend library is not part of this model;
 * each primitive below states the behaviour assumed of it.
 */
module Backend {
  import opened Wrappers

  /** The item categories that are stored as positional ledgers. */
  datatype Kind = AccessModeKind | ChatKind | ConfigKind | DeviceKind | FileKind | FolderKind | TagKind

  /** An item identifier: a position inside one category, or the user-data singleton. */
  datatype ItemId = At(kind: Kind, pos: nat) | UserDataId

  /** The fields of an item that synchronisation never inspects. */
  type Payload = seq<char>

  /** A database item: a positioned entity that records its own identifier, or the user data. */
  datatype Item = Entity(kind: Kind, id: nat, payload: Payload) | UserDataItem(data: Payload)

  /** The identifier an item reports for itself. */
  function IdOf(item: Item): ItemId {
    match item
    case Entity(k, p, _) => At(k, p)
    case UserDataItem(_) => UserDataId
  }

  /**
   * `set_id` (assumed): an entity takes over the position of the identifier and
   * keeps its category and fields; the user data has no position to set.
   */
  function SetId(item: Item, id: ItemId): Item {
    match item
    case Entity(k, _, body) => if id.At? then Entity(k, id.pos, body) else item
    case UserDataItem(_) => item
  }

  /** The client database: one ledger per category, plus the user's personal data. */
  datatype Db = Db(
    accessModes: seq<Item>,
    chats: seq<Item>,
    configs: seq<Item>,
    devices: seq<Item>,
    files: seq<Item>,
    folders: seq<Item>,
    tags: seq<Item>,
    userData: Payload)

  function Ledger(db: Db, k: Kind): seq<Item> {
    match k
    case AccessModeKind => db.accessModes
    case ChatKind => db.chats
    case ConfigKind => db.configs
    case DeviceKind => db.devices
    case FileKind => db.files
    case FolderKind => db.folders
    case TagKind => db.tags
  }

  function WithLedger(db: Db, k: Kind, s: seq<Item>): (r: Db)
    ensures Ledger(r, k) == s
    ensures forall k' :: k' != k ==> Ledger(r, k') == Ledger(db, k')
    ensures r.userData == db.userData
  {
    match k
    case AccessModeKind => db.(accessModes := s)
    case ChatKind => db.(chats := s)
    case ConfigKind => db.(configs := s)
    case DeviceKind => db.(devices := s)
    case FileKind => db.(files := s)
    case FolderKind => db.(folders := s)
    case TagKind => db.(tags := s)
  }

  lemma WithLedgerTwice(db: Db, k: Kind, s: seq<Item>, t: seq<Item>)
    ensures WithLedger(WithLedger(db, k, s), k, t) == WithLedger(db, k, t)
  {
  }

  lemma WithOwnLedger(db: Db, k: Kind)
    ensures WithLedger(db, k, Ledger(db, k)) == db
  {
  }

  /**
   * `add_mode`, `add_chat_raw`, `add_config`, `add_device`, `add_file_raw`,
   * `add_folder_raw`, `add_tag_raw` (assumed): push onto the item's ledger.
   */
  function Push(db: Db, item: Item): Db
    requires item.Entity?
  {
    WithLedger(db, item.kind, Ledger(db, item.kind) + [item])
  }

  /**
   * `insert_or_update` on a position inside the ledger (assumed): `true` means
   * the item replaced the one at its position; `false` means it was inserted
   * before it, moving that one and every later one up by a position.
   */
  function InsertOrUpdate(db: Db, item: Item, replaced: bool): Db
    requires item.Entity? && item.id < |Ledger(db, item.kind)|
  {
    var s := Ledger(db, item.kind);
    WithLedger(db, item.kind, if replaced then s[item.id := item] else s[..item.id] + [item] + s[item.id..])
  }

  /** The two requests the synchronisation code sends to the remote store. */
  datatype Request = Add(item: Item) | Get(id: ItemId)

  /** Replies of the remote store; every reply the code does not inspect is `OtherReply`. */
  datatype Reply = AddedItem(id: ItemId) | ReturnedItem(item: Item) | OtherReply

  /** The remote store as an oracle: `None` is a failed request. */
  type Server = Request -> Option<Reply>

  /** The verdict of `insert_or_update` for an item in a database state. */
  type Verdict = (Db, Item) -> bool

  /** `insert_directly`, whose effect on the database is not modelled. */
  type DirectInsert = (Db, Item) -> Db

  /**
   * Iteration `from..to` over identifiers: the positions of one category from
   * `from` up to but excluding `to`; empty across categories or when `to` is not
   * past `from`.
   */
  function IdRange(from: ItemId, to: ItemId): (r: seq<ItemId>)
    ensures |r| == if from.At? && to.At? && from.kind == to.kind && from.pos < to.pos then to.pos - from.pos else 0
    ensures forall j :: 0 <= j < |r| ==> r[j] == At(from.kind, from.pos + j)
  {
    if from.At? && to.At? && from.kind == to.kind && from.pos < to.pos then
      seq(to.pos - from.pos, j requires 0 <= j => At(from.kind, from.pos + j))
    else
      []
  }

  /** The reply of the remote store to fetching position `i` of category `k`. */
  function Answer(server: Server, k: Kind, i: nat): Option<Reply> {
    server(Get(At(k, i)))
  }

  /** Every position of category `k` is held by an entity of `k` that records that very position. */
  ghost predicate WellNumbered(s: seq<Item>, k: Kind) {
    forall p :: 0 <= p < |s| ==> s[p].Entity? && s[p].kind == k && s[p].id == p
  }
}
