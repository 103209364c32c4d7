/** The versioned campaign store: a compare-and-swap log of staged views and journals under one
    HEAD pointer. A commit is a sequence of file writes and renames; the writer may die before
    any of them. */
module CampaignStore {
  import opened Common

  type TxId = nat
  type Event = nat

  /** A document's path, component by component: normalized, with none empty, `.` or `..`. */
  type Doc = seq<nat>

  /** A document and the size of its file. */
  datatype Value = Value(text: nat, bytes: nat)

  type View = map<Doc, Value>

  /** SHA-256 of a document, taken as injective. */
  datatype Digest = Sha(value: Value)

  /** What a transaction asks for and its size, and its digest, taken as injective. */
  datatype Content = Content(expected: nat, events: seq<Event>, documents: View, bytes: nat)

  datatype RequestDigest = ShaOf(content: Content)

  const MAX_EVENTS := 10000
  const MAX_DOCUMENTS := 1024
  const MAX_TRANSACTION_BYTES := 67108864

  /** The checks of a commit's size, made before the lease is taken. What is proved of a commit
      holds for contents within and beyond these limits. */
  predicate Accepted(c: Content) {
    |c.events| <= MAX_EVENTS && |c.documents| <= MAX_DOCUMENTS && c.bytes <= MAX_TRANSACTION_BYTES
  }

  /** `CAMPAIGN_MAX_READ_BYTES`: no larger journal or document can be read back. */
  const READ_BYTES := 4194304

  /** HEAD, or the parent recorded in a journal. A run with no HEAD file is at Root. */
  datatype Pointer = Root | Commit(revision: nat, tx: TxId)

  function Rev(p: Pointer): nat {
    if p.Root? then 0 else p.revision
  }

  /** The name shared by a commit's journal and view. */
  datatype Key = Key(revision: nat, tx: TxId)

  function PointerTo(k: Key): Pointer {
    Commit(k.revision, k.tx)
  }

  /** `fileBytes` is the size of the journal on disk, which grows with its events; `itemBytes` is
      that of its entry in a change page. */
  datatype Journal = Journal(
    revision: nat, tx: TxId, parent: Pointer, events: seq<Event>, documents: map<Doc, Digest>,
    digest: RequestDigest, fileBytes: nat, itemBytes: nat)

  /** What is recorded of a commit; `recovered` when a replay found or linked it. */
  datatype Result = Result(revision: nat, tx: TxId, head: Pointer, recovered: bool)

  datatype Request = Request(digest: RequestDigest, expected: nat)

  datatype TxDir = TxDir(
    request: Option<Request>, staged: Option<View>, eventsFile: Option<seq<Event>>, result: Option<Result>)

  const EmptyTxDir := TxDir(None, None, None, None)

  datatype Orphan = Orphan(tx: TxId, dir: TxDir, view: Option<View>, journal: Option<Journal>, noted: bool)

  datatype Dir = Dir(
    head: Pointer, journals: map<Key, Journal>, views: map<Key, View>, txs: map<TxId, TxDir>,
    orphans: seq<Orphan>)

  const EmptyDir := Dir(Root, map[], map[], map[], [])

  /** The arguments of one commit; `order` is the order in which the documents are written. */
  datatype Args = Args(tx: TxId, content: Content, order: seq<Doc>, fileBytes: nat, itemBytes: nat)

  ghost predicate OrderOk(a: Args) {
    forall d :: d in a.order <==> d in a.content.documents
  }

  function KeyOf(a: Args): Key {
    Key(a.content.expected + 1, a.tx)
  }

  function Digests(v: View): map<Doc, Digest> {
    map d | d in v :: Sha(v[d])
  }

  datatype Error = StoreConflict | TooLarge | DirectoryExists | RenameFailed | NotFound | Malformed | PathClash

  // ------------------------------------------------------------------ reachability

  datatype Lookup = At(pointer: Pointer) | Missing | OverLimit

  /** `_campaign_reachable`: walks the recorded parents from a pointer, at most `fuel` of them
      and, when bounded, at most `budget` journal bytes. A journal over the read limit stops it. */
  function Reachable(d: Dir, cursor: Pointer, target: TxId, fuel: nat, budget: Option<nat>): Lookup
    decreases fuel
  {
    if fuel == 0 then OverLimit
    else
      match cursor
      case Root => Missing
      case Commit(r, t) =>
        if t == target then At(cursor)
        else if r == 0 || Key(r, t) !in d.journals then Missing
        else
          var j := d.journals[Key(r, t)];
          if (budget.Some? && j.fileBytes > budget.value) || j.fileBytes > READ_BYTES then OverLimit
          else
            Reachable(d, j.parent, target, fuel - 1,
                      if budget.Some? then Some(budget.value - j.fileBytes) else None)
  }

  /** The traversal limit of commits and event pages. The functions take the limit as a parameter
      and what is proved holds for every limit; the operations of StoreDirectory pass this one. */
  const MAX_COMMITS := 100000

  // ------------------------------------------------------------------ one live writer

  datatype Status = Live | Died | Raised(error: Error)

  datatype Proc = Proc(d: Dir, life: nat, status: Status)

  /** One write or rename: it happens as a whole, or the writer is gone. */
  function Effect(p: Proc, d: Dir): Proc {
    if p.status != Live then p
    else if p.life == 0 then p.(status := Died)
    else Proc(d, p.life - 1, Live)
  }

  function Raise(p: Proc, e: Error): Proc {
    if p.status == Live then p.(status := Raised(e)) else p
  }

  function SetTx(d: Dir, tx: TxId, t: TxDir): Dir {
    d.(txs := d.txs[tx := t])
  }

  // ---- quarantine

  function MoveTxDir(p: Proc, tx: TxId): Proc
    requires tx in p.d.txs
  {
    Effect(p, p.d.(txs := p.d.txs - {tx}, orphans := p.d.orphans + [Orphan(tx, p.d.txs[tx], None, None, false)]))
  }

  function LastOrphan(d: Dir): Orphan
    requires d.orphans != []
  {
    d.orphans[|d.orphans| - 1]
  }

  function SetLastOrphan(d: Dir, o: Orphan): Dir
    requires d.orphans != []
  {
    d.(orphans := d.orphans[|d.orphans| - 1 := o])
  }

  function MoveView(p: Proc, k: Key): Proc {
    if p.status != Live || p.d.orphans == [] || k !in p.d.views then p
    else Effect(p, SetLastOrphan(p.d, LastOrphan(p.d).(view := Some(p.d.views[k]))).(views := p.d.views - {k}))
  }

  function MoveJournal(p: Proc, k: Key): Proc {
    if p.status != Live || p.d.orphans == [] || k !in p.d.journals then p
    else Effect(p, SetLastOrphan(p.d, LastOrphan(p.d).(journal := Some(p.d.journals[k]))).(journals := p.d.journals - {k}))
  }

  function NoteOrphan(p: Proc): Proc {
    if p.status != Live || p.d.orphans == [] then p
    else Effect(p, SetLastOrphan(p.d, LastOrphan(p.d).(noted := true)))
  }

  /** `_campaign_quarantine`. */
  function Quarantine(p: Proc, tx: TxId, k: Key): Proc
    requires tx in p.d.txs
  {
    NoteOrphan(MoveJournal(MoveView(MoveTxDir(p, tx), k), k))
  }

  // ---- a fresh transaction

  function MakeTxDir(p: Proc, tx: TxId): Proc {
    if tx in p.d.txs then Raise(p, DirectoryExists) else Effect(p, SetTx(p.d, tx, EmptyTxDir))
  }

  function WriteRequest(p: Proc, a: Args): Proc {
    if a.tx !in p.d.txs then p
    else Effect(p, SetTx(p.d, a.tx, p.d.txs[a.tx].(request := Some(Request(ShaOf(a.content), a.content.expected)))))
  }

  /** A path is needed both as a file and as a directory. */
  predicate Clashes(v: View, doc: Doc) {
    exists x | x in v :: x < doc || doc < x
  }

  /** One document. It cannot be written below, or in place of a directory above, another one. */
  function StageOne(p: Proc, a: Args, doc: Doc): Proc {
    if a.tx !in p.d.txs || doc !in a.content.documents then p
    else
      var t := p.d.txs[a.tx];
      var before := if t.staged.Some? then t.staged.value else map[];
      if Clashes(before, doc) then Raise(p, PathClash)
      else Effect(p, SetTx(p.d, a.tx, t.(staged := Some(before[doc := a.content.documents[doc]]))))
  }

  function StageAll(p: Proc, a: Args, order: seq<Doc>): Proc {
    if order == [] then p
    else
      var n := |order| - 1;
      StageOne(StageAll(p, a, order[..n]), a, order[n])
  }

  function WriteEvents(p: Proc, a: Args): Proc {
    if a.tx !in p.d.txs then p
    else Effect(p, SetTx(p.d, a.tx, p.d.txs[a.tx].(eventsFile := Some(a.content.events))))
  }

  /** The rename fails when nothing was staged or a view is already there. */
  function PublishView(p: Proc, a: Args): Proc {
    if p.status != Live then p
    else if a.tx !in p.d.txs || p.d.txs[a.tx].staged.None? || KeyOf(a) in p.d.views then Raise(p, RenameFailed)
    else
      var t := p.d.txs[a.tx];
      Effect(p, SetTx(p.d, a.tx, t.(staged := None)).(views := p.d.views[KeyOf(a) := t.staged.value]))
  }

  function JournalFor(a: Args, parent: Pointer): Journal {
    Journal(a.content.expected + 1, a.tx, parent, a.content.events, Digests(a.content.documents),
            ShaOf(a.content), a.fileBytes, a.itemBytes)
  }

  function PublishJournal(p: Proc, a: Args, parent: Pointer): Proc {
    Effect(p, p.d.(journals := p.d.journals[KeyOf(a) := JournalFor(a, parent)]))
  }

  function PublishHead(p: Proc, k: Key): Proc {
    Effect(p, p.d.(head := PointerTo(k)))
  }

  function ResultFor(k: Key, recovered: bool): Result {
    Result(k.revision, k.tx, PointerTo(k), recovered)
  }

  function WriteResult(p: Proc, k: Key, recovered: bool): Proc {
    if k.tx !in p.d.txs then p
    else Effect(p, SetTx(p.d, k.tx, p.d.txs[k.tx].(result := Some(ResultFor(k, recovered)))))
  }

  /** From an unused transaction directory to a published view. */
  function Stage(p: Proc, a: Args): Proc {
    PublishView(WriteEvents(StageAll(WriteRequest(MakeTxDir(p, a.tx), a), a, a.order), a), a)
  }

  function Publish(p: Proc, a: Args, parent: Pointer): Proc {
    WriteResult(PublishHead(PublishJournal(p, a, parent), KeyOf(a)), KeyOf(a), false)
  }

  // ------------------------------------------------------------------ the operation

  datatype Outcome =
    | Committed(result: Result, idempotent: bool)
    | Failed(error: Error)
    | Stopped

  function Finish(p: Proc, k: Key, idempotent: bool, recovered: bool): (Dir, Outcome) {
    match p.status
    case Live => (p.d, Committed(ResultFor(k, recovered), idempotent))
    case Died => (p.d, Stopped)
    case Raised(e) => (p.d, Failed(e))
  }

  predicate HasRequest(d: Dir, tx: TxId) {
    tx in d.txs && d.txs[tx].request.Some?
  }

  /** The part of a commit that writes: the history does not have the transaction. */
  function Unrecorded(d: Dir, a: Args, life: nat): (Dir, Outcome) {
    var k := KeyOf(a);
    var p := Proc(d, life, Live);
    if HasRequest(d, a.tx) && k in d.journals && k in d.views && Rev(d.head) == a.content.expected then
      Finish(WriteResult(PublishHead(p, k), k, true), k, false, true)
    else if Rev(d.head) != a.content.expected then (d, Failed(StoreConflict))
    else
      var q := if HasRequest(d, a.tx) then Quarantine(p, a.tx, k) else p;
      Finish(Publish(Stage(q, a), a, d.head), k, false, false)
  }

  /** `op_campaign_commit`, from the moment the writer holds the lease. */
  function CommitOp(d: Dir, a: Args, life: nat, max: nat): (Dir, Outcome) {
    if HasRequest(d, a.tx) && d.txs[a.tx].request.value.digest != ShaOf(a.content) then
      (d, Failed(StoreConflict))
    else if HasRequest(d, a.tx) && d.txs[a.tx].result.Some? then
      (d, Committed(d.txs[a.tx].result.value, true))
    else
      var found := if HasRequest(d, a.tx) then Reachable(d, d.head, a.tx, max, None) else Missing;
      match found
      case OverLimit => (d, Failed(TooLarge))
      case At(at) =>
        var at' := Key(Rev(at), a.tx);
        Finish(WriteResult(Proc(d, life, Live), at', true), at', true, true)
      case Missing => Unrecorded(d, a, life)
  }
}
