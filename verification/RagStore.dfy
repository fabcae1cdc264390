/**
 The markdown half of the in-memory store: versioned documents, index jobs and chunk rows.

 The functions say what each store operation does to the whole state.  `MarkdownStore`
 (file MarkdownStore.dfy) is the object that performs them in place.
 */
module RagStore {
  import opened Wrappers
  import Chunking
  import Utf16

  type UserId = string
  type Path = string
  type Hash = string
  type Text = Utf16.Text

  datatype Doc = Doc(id: nat, user: UserId, path: Path, text: Text, hash: Hash, version: nat, indexed: bool)

  // The point id is a SHA-256 of these four values in the program; here it is the four values.
  datatype PointId = PointId(user: UserId, doc: nat, version: nat, index: nat)

  datatype Chunk = Chunk(point: PointId, doc: nat, version: nat, index: nat, piece: Chunking.Piece)

  datatype JobKind = IndexMarkdown | DeleteMarkdown

  datatype JobStatus = Pending | Claimed | Completed | Failed | Dead

  datatype Job = Job(
    id: nat, user: UserId, doc: nat, version: nat, hash: Hash, kind: JobKind,
    status: JobStatus, attempts: nat, availableAt: int, startedAt: Option<int>)

  datatype Store = Store(
    docs: map<(UserId, Path), Doc>,
    jobs: seq<Job>,
    chunks: map<(UserId, nat), seq<Chunk>>,
    nextId: nat)

  datatype WriteResult = Written(doc: Doc) | Conflict(expected: nat, actual: nat) | NotFound | Deleted

  const EMPTY_STORE := Store(map[], [], map[], 0)
  const CLAIM_LEASE_MS := 5 * 60_000

  /** The chunk rows, and so the vector points, that indexing this version of a document produces. */
  function ChunksOf(d: Doc): seq<Chunk> {
    hide Chunking.Pieces;
    var pieces := Chunking.Pieces(d.text);
    seq(|pieces|, i requires 0 <= i < |pieces| =>
      Chunk(PointId(d.user, d.id, d.version, i), d.id, d.version, i, pieces[i]))
  }

  predicate IsDescendant(path: Path, ancestor: Path) {
    ancestor + "/" <= path
  }

  predicate InTree(path: Path, root: Path) {
    path == root || IsDescendant(path, root)
  }

  predicate MatchesPrefix(path: Path, prefix: Path) {
    prefix == "/" || InTree(path, prefix)
  }

  // ----- documents -----

  function PushRagJob(s: Store, d: Doc, kind: JobKind, now: int): Store {
    s.(jobs := s.jobs + [Job(|s.jobs|, d.user, d.id, d.version, d.hash, kind, Pending, 0, now, None)])
  }

  function ActualVersion(s: Store, user: UserId, path: Path): nat {
    if (user, path) in s.docs then s.docs[(user, path)].version else 0
  }

  function NextDoc(s: Store, user: UserId, path: Path, text: Text, hash: Hash): Doc {
    if (user, path) in s.docs then
      s.docs[(user, path)].(user := user, path := path, text := text, hash := hash, version := s.docs[(user, path)].version + 1, indexed := false)
    else
      Doc(s.nextId, user, path, text, hash, 1, false)
  }

  function WriteMarkdown(s: Store, user: UserId, path: Path, text: Text, hash: Hash, expected: Option<nat>, now: int): (Store, WriteResult) {
    var actual := ActualVersion(s, user, path);
    if expected.Some? && expected.value != actual then
      (s, Conflict(expected.value, actual))
    else
      var d := NextDoc(s, user, path, text, hash);
      var stored := s.(docs := s.docs[(user, path) := d], nextId := if (user, path) in s.docs then s.nextId else s.nextId + 1);
      (PushRagJob(stored, d, IndexMarkdown, now), Written(d))
  }

  function DeleteMarkdownPath(s: Store, user: UserId, path: Path, expected: Option<nat>, now: int): (Store, WriteResult) {
    if (user, path) !in s.docs then
      (s, NotFound)
    else
      var d := s.docs[(user, path)];
      if expected.Some? && expected.value != d.version then
        (s, Conflict(expected.value, d.version))
      else
        (PushRagJob(s.(docs := s.docs - {(user, path)}), d, DeleteMarkdown, now), Deleted)
  }

  function MovedPath(path: Path, from: Path, to: Path): Path
    requires InTree(path, from)
  {
    if path == from then to else to + path[|from|..]
  }

  function MovedDoc(d: Doc, from: Path, to: Path): Doc
    requires InTree(d.path, from)
  {
    d.(path := MovedPath(d.path, from, to), version := d.version + 1, indexed := false)
  }

  function MoveOne(s: Store, d: Doc, from: Path, to: Path, now: int): Store
    requires InTree(d.path, from)
  {
    var next := MovedDoc(d, from, to);
    var without := s.docs - {(d.user, d.path)};
    PushRagJob(s.(docs := without[(d.user, next.path) := next]), next, IndexMarkdown, now)
  }

  /** Moves the listed documents one after the other; each move may overwrite what is at its target. */
  function MoveDocs(s: Store, order: seq<Doc>, from: Path, to: Path, now: int): Store
    requires forall d <- order :: InTree(d.path, from)
  {
    if order == [] then s
    else MoveOne(MoveDocs(s, order[..|order| - 1], from, to, now), order[|order| - 1], from, to, now)
  }

  /** `order` lists exactly the live documents of `user` that satisfy `p`, each once. */
  ghost predicate Enumerates(order: seq<Doc>, s: Store, user: UserId, p: Path -> bool) {
    && (forall d <- order :: d in s.docs.Values && d.user == user && p(d.path))
    && (forall k <- s.docs :: k.0 == user && p(k.1) ==> s.docs[k] in order)
    && (forall i, j :: 0 <= i < j < |order| ==> order[i] != order[j])
  }

  function PushJobs(s: Store, order: seq<Doc>, now: int): Store {
    if order == [] then s
    else PushRagJob(PushJobs(s, order[..|order| - 1], now), order[|order| - 1], IndexMarkdown, now)
  }

  // ----- index jobs -----

  predicate Claimable(j: Job, now: int) {
    || (j.status == Pending && j.availableAt <= now)
    || (j.status == Claimed && j.startedAt.Some? && j.startedAt.value < now - CLAIM_LEASE_MS)
  }

  function ClaimedRow(j: Job, at: int): Job {
    j.(status := Claimed, attempts := j.attempts + 1, startedAt := Some(at))
  }

  /** Scans the first `n` rows oldest first and claims at most `limit` of them; returns the claimed copies. */
  function ClaimUpTo(jobs: seq<Job>, n: nat, limit: nat, now: int, at: int): (r: (seq<Job>, seq<Job>))
    requires n <= |jobs|
    ensures |r.0| == |jobs| && |r.1| <= limit
  {
    if n == 0 then (jobs, [])
    else
      var (rows, claimed) := ClaimUpTo(jobs, n - 1, limit, now, at);
      if |claimed| < limit && Claimable(jobs[n - 1], now) then
        var row := ClaimedRow(jobs[n - 1], at);
        (rows[n - 1 := row], claimed + [row])
      else
        (rows, claimed)
  }

  predicate SameRequest(a: Job, b: Job) {
    a.user == b.user && a.doc == b.doc && a.kind == b.kind && a.version == b.version && a.hash == b.hash
  }

  /** Another pending or claimed row asks for the same work. */
  ghost predicate HasActiveTwin(jobs: seq<Job>, id: nat)
    requires id < |jobs|
  {
    exists i :: 0 <= i < |jobs| && i != id && SameRequest(jobs[i], jobs[id]) && (jobs[i].status == Pending || jobs[i].status == Claimed)
  }

  ghost predicate RetryApplies(jobs: seq<Job>, id: nat) {
    id < |jobs| && (jobs[id].status == Failed || jobs[id].status == Dead) && !HasActiveTwin(jobs, id)
  }

  ghost function RetryRagIndexJob(jobs: seq<Job>, id: nat, now: int): (r: seq<Job>)
    ensures |r| == |jobs|
  {
    if RetryApplies(jobs, id) then
      jobs[id := jobs[id].(status := Pending, attempts := 0, availableAt := now, startedAt := None)]
    else jobs
  }

  function SetStatus(jobs: seq<Job>, id: nat, status: JobStatus): (r: seq<Job>)
    ensures |r| == |jobs|
  {
    if id < |jobs| then jobs[id := jobs[id].(status := status)] else jobs
  }

  function FailRagIndexJob(jobs: seq<Job>, id: nat, retryAt: Option<int>): (r: seq<Job>)
    ensures |r| == |jobs|
  {
    if id >= |jobs| then jobs
    else if retryAt.Some? then jobs[id := jobs[id].(status := Pending, availableAt := retryAt.value)]
    else jobs[id := jobs[id].(status := Failed)]
  }

  // ----- chunk rows -----

  ghost predicate IsLive(s: Store, user: UserId, id: nat) {
    exists k :: k in s.docs && s.docs[k].user == user && s.docs[k].id == id
  }

  ghost function Lookup(s: Store, user: UserId, id: nat): (d: Doc)
    requires IsLive(s, user, id)
    ensures d in s.docs.Values && d.user == user && d.id == id
  {
    var k :| k in s.docs && s.docs[k].user == user && s.docs[k].id == id;
    s.docs[k]
  }

  function MarkIndexed(docs: map<(UserId, Path), Doc>, user: UserId, id: nat): map<(UserId, Path), Doc> {
    map k | k in docs :: if docs[k].user == user && docs[k].id == id then docs[k].(indexed := true) else docs[k]
  }

  /** `guard` is the version and hash that were indexed; deletion jobs pass none. */
  ghost function ReplaceDocumentChunks(s: Store, user: UserId, id: nat, rows: seq<Chunk>, guard: Option<(nat, Hash)>): Store {
    if guard.Some? && !(IsLive(s, user, id) && Lookup(s, user, id).version == guard.value.0 && Lookup(s, user, id).hash == guard.value.1) then
      s
    else
      s.(chunks := s.chunks[(user, id) := rows], docs := MarkIndexed(s.docs, user, id))
  }

  // ----- semantic search -----

  datatype SearchRow = SearchRow(path: Path, version: nat, index: nat, score: real, piece: Chunking.Piece)

  /** No two live documents share an id. */
  ghost predicate UniqueIds(s: Store) {
    forall k <- s.docs, l <- s.docs :: s.docs[k].id == s.docs[l].id ==> k == l
  }

  ghost predicate StoredRow(s: Store, c: Chunk) {
    exists key :: key in s.chunks && c in s.chunks[key]
  }

  /** A point id names one chunk row. */
  ghost predicate UniquePoints(s: Store) {
    forall key <- s.chunks, other <- s.chunks, c, e ::
      c in s.chunks[key] && e in s.chunks[other] && c.point == e.point ==> c == e
  }

  /** The live document a hit may be reported for: same user, same version as the row, under the prefix. */
  predicate Reports(d: Doc, c: Chunk, user: UserId, prefix: Path) {
    d.user == user && d.id == c.doc && d.version == c.version && MatchesPrefix(d.path, prefix)
  }

  /** What one hit yields: the row it names, if a live document of the user still has that version. */
  ghost predicate HitYields(s: Store, user: UserId, prefix: Path, point: PointId, score: real, row: SearchRow) {
    exists c, d :: StoredRow(s, c) && c.point == point && d in s.docs.Values && Reports(d, c, user, prefix)
      && row == SearchRow(d.path, d.version, c.index, score, c.piece)
  }

  ghost predicate HitIsStale(s: Store, user: UserId, prefix: Path, point: PointId) {
    forall c, d :: StoredRow(s, c) && c.point == point && d in s.docs.Values ==> !Reports(d, c, user, prefix)
  }

  /** Stale hits are dropped; the others keep the order of the hits. */
  ghost predicate SearchResult(s: Store, user: UserId, prefix: Path, hits: seq<(PointId, real)>, rows: seq<SearchRow>)
  {
    if hits == [] then rows == []
    else
      var last := hits[|hits| - 1];
      var before := hits[..|hits| - 1];
      || (HitIsStale(s, user, prefix, last.0) && SearchResult(s, user, prefix, before, rows))
      || (rows != [] && HitYields(s, user, prefix, last.0, last.1, rows[|rows| - 1])
          && SearchResult(s, user, prefix, before, rows[..|rows| - 1]))
  }

  function SearchLimit(limit: Option<int>): nat {
    var n := if limit.Some? then limit.value else 10;
    if n > 25 then 25 else if n < 1 then 1 else n
  }
}
