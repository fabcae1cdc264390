/** The store object: every operation updates the maps and the job list in place. */
module MarkdownStore {
  import opened Wrappers
  import opened RagStore

  class MarkdownStore {
    var docs: map<(UserId, Path), Doc>
    var jobs: seq<Job>
    var chunks: map<(UserId, nat), seq<Chunk>>
    var nextId: nat

    ghost function State(): Store
      reads this
    {
      Store(docs, jobs, chunks, nextId)
    }

    constructor ()
      ensures State() == EMPTY_STORE
    {
      docs, jobs, chunks, nextId := map[], [], map[], 0;
    }

    method PushJob(d: Doc, kind: JobKind, now: int)
      modifies this`jobs
      ensures State() == PushRagJob(old(State()), d, kind, now)
    {
      jobs := jobs + [Job(|jobs|, d.user, d.id, d.version, d.hash, kind, Pending, 0, now, None)];
    }

    // ----- documents -----

    method WriteMarkdownDocument(user: UserId, path: Path, text: Text, hash: Hash, expected: Option<nat>, now: int) returns (r: WriteResult)
      modifies this
      ensures (State(), r) == WriteMarkdown(old(State()), user, path, text, hash, expected, now)
    {
      var key := (user, path);
      if expected.Some? {
        var actual := if key in docs then docs[key].version else 0;
        if actual != expected.value { return Conflict(expected.value, actual); }
      }
      var d: Doc;
      if key in docs {
        d := docs[key].(user := user, path := path, text := text, hash := hash, version := docs[key].version + 1, indexed := false);
      } else {
        d := Doc(nextId, user, path, text, hash, 1, false);
        nextId := nextId + 1;
      }
      docs := docs[key := d];
      PushJob(d, IndexMarkdown, now);
      r := Written(d);
    }

    method DeleteMarkdownPath(user: UserId, path: Path, expected: Option<nat>, now: int) returns (r: WriteResult)
      modifies this
      ensures (State(), r) == RagStore.DeleteMarkdownPath(old(State()), user, path, expected, now)
    {
      var key := (user, path);
      if key !in docs { return NotFound; }
      var d := docs[key];
      if expected.Some? && expected.value != d.version { return Conflict(expected.value, d.version); }
      docs := docs - {key};
      PushJob(d, DeleteMarkdown, now);
      r := Deleted;
    }

    /** `order` is the subtree in the order the collation gives; a stale expected version stops the move. */
    method MoveMarkdownPath(user: UserId, order: seq<Doc>, from: Path, to: Path, expected: map<Path, nat>, now: int) returns (moved: Option<seq<Doc>>)
      requires Enumerates(order, State(), user, p => InTree(p, from))
      requires forall d <- order :: InTree(d.path, from)
      modifies this
      ensures moved.None? <==> exists d :: d in order && d.path in expected && expected[d.path] != d.version
      ensures moved.None? ==> State() == old(State())
      ensures moved.Some? ==> State() == MoveDocs(old(State()), order, from, to, now)
      ensures moved.Some? ==> |moved.value| == |order| && forall i {:trigger moved.value[i]} :: 0 <= i < |order| && InTree(order[i].path, from) ==>
        moved.value[i] == MovedDoc(order[i], from, to)
    {
      for i := 0 to |order|
        invariant forall j :: 0 <= j < i && order[j].path in expected ==> expected[order[j].path] == order[j].version
      {
        if order[i].path in expected && expected[order[i].path] != order[i].version { return None; }
      }
      var result: seq<Doc> := [];
      for i := 0 to |order|
        invariant State() == MoveDocs(old(State()), order[..i], from, to, now)
        invariant |result| == i
        invariant forall j {:trigger result[j]} :: 0 <= j < i && InTree(order[j].path, from) ==> result[j] == MovedDoc(order[j], from, to)
      {
        assert order[..i + 1][..i] == order[..i];
        var d := order[i];
        assert d in order;
        hide Enumerates;
        var updated := MovedDoc(d, from, to);
        docs := docs - {(d.user, d.path)};
        docs := docs[(d.user, updated.path) := updated];
        PushJob(updated, IndexMarkdown, now);
        result := result + [updated];
      }
      assert order[..|order|] == order;
      moved := Some(result);
    }

    method ReindexMarkdownPath(user: UserId, order: seq<Doc>, prefix: Path, now: int)
      requires Enumerates(order, State(), user, p => MatchesPrefix(p, prefix))
      modifies this`jobs
      ensures State() == PushJobs(old(State()), order, now)
    {
      for i := 0 to |order|
        invariant State() == PushJobs(old(State()), order[..i], now)
      {
        assert order[..i + 1][..i] == order[..i];
        PushJob(order[i], IndexMarkdown, now);
      }
      assert order[..|order|] == order;
    }

    // ----- index jobs -----

    /** Once the limit is reached the remaining rows stay as they are. */
    static lemma {:induction false} LimitReached(rows: seq<Job>, i: nat, n: nat, limit: nat, now: int, at: int)
      requires i <= n <= |rows| && |ClaimUpTo(rows, i, limit, now, at).1| >= limit
      ensures ClaimUpTo(rows, n, limit, now, at) == ClaimUpTo(rows, i, limit, now, at)
    {
      if i < n { LimitReached(rows, i, n - 1, limit, now, at); }
    }

    static lemma {:induction false} ScannedOnly(rows: seq<Job>, n: nat, limit: nat, now: int, at: int)
      requires n <= |rows|
      ensures forall i :: n <= i < |rows| ==> ClaimUpTo(rows, n, limit, now, at).0[i] == rows[i]
    {
      if n > 0 { ScannedOnly(rows, n - 1, limit, now, at); }
    }

    method ClaimRagIndexJobs(limit: nat, now: int, at: int) returns (claimed: seq<Job>)
      modifies this`jobs
      ensures (jobs, claimed) == ClaimUpTo(old(jobs), |old(jobs)|, limit, now, at)
    {
      claimed := [];
      var i := 0;
      while i < |jobs|
        invariant 0 <= i <= |jobs| == |old(jobs)|
        invariant (jobs, claimed) == ClaimUpTo(old(jobs), i, limit, now, at)
        decreases |jobs| - i
      {
        if |claimed| >= limit {
          LimitReached(old(jobs), i, |jobs|, limit, now, at);
          break;
        }
        ScannedOnly(old(jobs), i, limit, now, at);
        var job := jobs[i];
        var staleClaim := job.status == Claimed && job.startedAt.Some? && job.startedAt.value < now - CLAIM_LEASE_MS;
        if (job.status == Pending && job.availableAt <= now) || staleClaim {
          job := job.(status := Claimed, attempts := job.attempts + 1, startedAt := Some(at));
          jobs := jobs[i := job];
          claimed := claimed + [job];
        }
        i := i + 1;
      }
    }

    /** Rows carry their position as id. */
    predicate RowIds()
      reads this
    {
      forall i :: 0 <= i < |jobs| ==> jobs[i].id == i
    }

    method FindJob(id: nat) returns (found: bool)
      requires RowIds()
      ensures found <==> id < |jobs|
    {
      found := false;
      for i := 0 to |jobs|
        invariant !(id < i) && !found
      {
        if jobs[i].id == id { return true; }
      }
    }

    method CompleteRagIndexJob(id: nat)
      requires RowIds()
      modifies this`jobs
      ensures RowIds() && jobs == SetStatus(old(jobs), id, Completed)
    {
      var found := FindJob(id);
      if found { jobs := jobs[id := jobs[id].(status := Completed)]; }
    }

    method MarkRagIndexJobDead(id: nat)
      requires RowIds()
      modifies this`jobs
      ensures RowIds() && jobs == SetStatus(old(jobs), id, Dead)
    {
      var found := FindJob(id);
      if found { jobs := jobs[id := jobs[id].(status := Dead)]; }
    }

    method FailRagIndexJob(id: nat, retryAt: Option<int>)
      requires RowIds()
      modifies this`jobs
      ensures RowIds() && jobs == RagStore.FailRagIndexJob(old(jobs), id, retryAt)
      ensures id < |old(jobs)| && retryAt.Some? ==> jobs == old(jobs)[id := old(jobs)[id].(status := Pending, availableAt := retryAt.value)]
      ensures id < |old(jobs)| && retryAt.None? ==> jobs == old(jobs)[id := old(jobs)[id].(status := Failed)]
    {
      var found := FindJob(id);
      if found {
        var job := jobs[id];
        job := job.(status := if retryAt.Some? then Pending else Failed);
        if retryAt.Some? { job := job.(availableAt := retryAt.value); }
        jobs := jobs[id := job];
      }
    }

    /** Returns the row that is active afterwards: the retried one, or a twin that already was. */
    method RetryRagIndexJob(caller: UserId, includeAll: bool, id: nat, now: int) returns (r: Option<Job>)
      requires RowIds()
      modifies this`jobs
      ensures RowIds()
      ensures r.Some? <==>
        id < |old(jobs)| && (includeAll || old(jobs)[id].user == caller)
        && (old(jobs)[id].status == Failed || old(jobs)[id].status == Dead)
      ensures jobs == if r.Some? then RagStore.RetryRagIndexJob(old(jobs), id, now) else old(jobs)
      ensures r.Some? ==> r.value in jobs && SameRequest(r.value, jobs[id]) && (r.value.status == Pending || r.value.status == Claimed)
    {
      var found := FindJob(id);
      if !found || !(includeAll || jobs[id].user == caller) || !(jobs[id].status == Failed || jobs[id].status == Dead) {
        return None;
      }
      for i := 0 to |jobs|
        invariant jobs == old(jobs)
        invariant forall j :: 0 <= j < i && j != id && SameRequest(jobs[j], jobs[id]) ==> !(jobs[j].status == Pending || jobs[j].status == Claimed)
      {
        if jobs[i].id != id && SameRequest(jobs[i], jobs[id]) && (jobs[i].status == Pending || jobs[i].status == Claimed) {
          assert jobs[i] in jobs;
          return Some(jobs[i]);
        }
      }
      var job := jobs[id].(status := Pending, attempts := 0, availableAt := now, startedAt := None);
      jobs := jobs[id := job];
      assert jobs[id] == job;
      r := Some(job);
    }

    // ----- chunk rows and search -----

    method FindById(user: UserId, id: nat) returns (found: Option<Doc>)
      requires UniqueIds(State())
      ensures found.Some? <==> IsLive(State(), user, id)
      ensures found.Some? ==> found.value == Lookup(State(), user, id)
    {
      found := None;
      var keys := docs.Keys;
      while keys != {}
        invariant keys <= docs.Keys
        invariant forall k :: k in docs && k !in keys ==> !(docs[k].user == user && docs[k].id == id)
        decreases |keys|
      {
        var k :| k in keys;
        if docs[k].user == user && docs[k].id == id {
          assert IsLive(State(), user, id);
          return Some(docs[k]);
        }
        keys := keys - {k};
      }
    }

    method ReplaceDocumentChunks(user: UserId, id: nat, rows: seq<Chunk>, guard: Option<(nat, Hash)>)
      requires UniqueIds(State())
      modifies this
      ensures State() == RagStore.ReplaceDocumentChunks(old(State()), user, id, rows, guard)
    {
      if guard.Some? {
        var current := FindById(user, id);
        if current.None? || current.value.version != guard.value.0 || current.value.hash != guard.value.1 { return; }
      }
      chunks := chunks[(user, id) := rows];
      MarkDocIndexed(user, id);
    }

    method MarkDocIndexed(user: UserId, id: nat)
      modifies this`docs
      ensures docs == MarkIndexed(old(docs), user, id)
    {
      var keys := docs.Keys;
      while keys != {}
        invariant keys <= docs.Keys == old(docs).Keys
        invariant forall k <- docs :: docs[k] == if k in keys then old(docs)[k] else MarkIndexed(old(docs), user, id)[k]
        decreases |keys|
      {
        var k :| k in keys;
        if docs[k].user == user && docs[k].id == id { docs := docs[k := docs[k].(indexed := true)]; }
        keys := keys - {k};
      }
    }

    /** Adds the rows of one document; rows never share a point with a different stored row. */
    method AddRows(byPoint: map<PointId, Chunk>, rows: seq<Chunk>) returns (r: map<PointId, Chunk>)
      requires forall c <- rows, e <- rows :: c.point == e.point ==> c == e
      requires forall c <- rows :: c.point in byPoint ==> byPoint[c.point] == c
      ensures forall p <- byPoint :: p in r && r[p] == byPoint[p]
      ensures forall c <- rows :: c.point in r && r[c.point] == c
      ensures forall p <- r :: p in byPoint || (r[p] in rows && r[p].point == p)
    {
      r := byPoint;
      for i := 0 to |rows|
        invariant forall p <- byPoint :: p in r && r[p] == byPoint[p]
        invariant forall j :: 0 <= j < i ==> rows[j].point in r && r[rows[j].point] == rows[j]
        invariant forall p <- r :: p in byPoint || (r[p] in rows && r[p].point == p)
      {
        assert rows[i] in rows;
        r := r[rows[i].point := rows[i]];
      }
    }

    ghost predicate Registered(byPoint: map<PointId, Chunk>, rows: seq<Chunk>) {
      forall c <- rows :: c.point in byPoint && byPoint[c.point] == c
    }

    ghost predicate OnlyStored(byPoint: map<PointId, Chunk>)
      reads this
    {
      forall p <- byPoint :: StoredRow(State(), byPoint[p]) && byPoint[p].point == p
    }

    method ChunksByPoint() returns (byPoint: map<PointId, Chunk>)
      requires UniquePoints(State())
      ensures forall key <- chunks :: Registered(byPoint, chunks[key])
      ensures OnlyStored(byPoint)
    {
      byPoint := map[];
      var keys := chunks.Keys;
      while keys != {}
        invariant keys <= chunks.Keys && OnlyStored(byPoint)
        invariant forall key <- chunks :: key !in keys ==> Registered(byPoint, chunks[key])
        decreases |keys|
      {
        var key :| key in keys;
        var before := byPoint;
        forall c | c in chunks[key] && c.point in byPoint ensures byPoint[c.point] == c {
          assert StoredRow(State(), c);
        }
        byPoint := AddRows(byPoint, chunks[key]);
        forall p | p in byPoint ensures StoredRow(State(), byPoint[p]) && byPoint[p].point == p {
          if p in before { assert StoredRow(State(), before[p]); }
        }
        forall other | other in chunks && other !in keys ensures Registered(byPoint, chunks[other]) {
          assert Registered(before, chunks[other]);
        }
        keys := keys - {key};
      }
    }

    method FindReported(c: Chunk, user: UserId, prefix: Path) returns (found: Option<Doc>)
      ensures found.Some? ==> found.value in docs.Values && Reports(found.value, c, user, prefix)
      ensures found.None? ==> forall d <- docs.Values :: !Reports(d, c, user, prefix)
    {
      found := None;
      var keys := docs.Keys;
      while keys != {}
        invariant keys <= docs.Keys
        invariant forall k :: k in docs && k !in keys ==> !Reports(docs[k], c, user, prefix)
        decreases |keys|
      {
        var k :| k in keys;
        if Reports(docs[k], c, user, prefix) { return Some(docs[k]); }
        keys := keys - {k};
      }
    }

    method ResolveHit(byPoint: map<PointId, Chunk>, user: UserId, prefix: Path, point: PointId, score: real) returns (row: Option<SearchRow>)
      requires forall key <- chunks :: Registered(byPoint, chunks[key])
      requires OnlyStored(byPoint)
      ensures row.Some? ==> HitYields(State(), user, prefix, point, score, row.value)
      ensures row.None? ==> HitIsStale(State(), user, prefix, point)
    {
      row := None;
      if point in byPoint {
        var c := byPoint[point];
        var d := FindReported(c, user, prefix);
        if d.Some? {
          row := Some(SearchRow(d.value.path, d.value.version, c.index, score, c.piece));
        }
      }
    }

    static lemma ExtendResult(s: Store, user: UserId, prefix: Path, hits: seq<(PointId, real)>, i: nat, rows: seq<SearchRow>, row: Option<SearchRow>)
      requires i < |hits| && SearchResult(s, user, prefix, hits[..i], rows)
      requires row.Some? ==> HitYields(s, user, prefix, hits[i].0, hits[i].1, row.value)
      requires row.None? ==> HitIsStale(s, user, prefix, hits[i].0)
      ensures SearchResult(s, user, prefix, hits[..i + 1], if row.Some? then rows + [row.value] else rows)
    {
      assert hits[..i + 1][..i] == hits[..i];
      if row.Some? { assert (rows + [row.value])[..|rows|] == rows; }
    }

    /** `all` are the results before the limit is applied. */
    method SearchMarkdownSemantic(user: UserId, prefix: Path, hits: seq<(PointId, real)>, limit: Option<int>) returns (rows: seq<SearchRow>, ghost all: seq<SearchRow>)
      requires UniquePoints(State())
      ensures SearchResult(State(), user, prefix, hits, all)
      ensures rows <= all && |rows| <= 25
      ensures limit == None ==> |rows| == if |all| < 10 then |all| else 10
      ensures limit.Some? && 1 <= limit.value <= 25 ==> |rows| == if |all| < limit.value then |all| else limit.value
      ensures limit.Some? && limit.value < 1 ==> |rows| == if |all| < 1 then |all| else 1
      ensures limit.Some? && limit.value > 25 ==> |rows| == if |all| < 25 then |all| else 25
    {
      var byPoint := ChunksByPoint();
      rows := [];
      for i := 0 to |hits|
        invariant SearchResult(State(), user, prefix, hits[..i], rows)
      {
        var row := ResolveHit(byPoint, user, prefix, hits[i].0, hits[i].1);
        ExtendResult(State(), user, prefix, hits, i, rows, row);
        if row.Some? { rows := rows + [row.value]; }
      }
      assert hits[..|hits|] == hits;
      all := rows;
      var n := SearchLimit(limit);
      if |rows| > n { rows := rows[..n]; } else { assert rows == all[..|all|]; }
    }
  }
}
