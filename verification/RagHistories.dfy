/** Documents over whole histories: what is read back is what was last written there, and no write is lost unseen. */
module RagHistories {
  import opened Wrappers
  import opened RagStore
  import opened RagPaths
  import opened RagWorker

  type Key = (UserId, Path)

  /** The event may change what is stored under the key: a write or removal there, or a move out of or into a folder that holds it. */
  predicate Touches(e: Event, k: Key) {
    match e
    case Write(user, path, _, _, _, _) => k == (user, path)
    case Remove(user, path, _, _) => k == (user, path)
    case Move(user, _, from, to, _) => k.0 == user && (Segments(from) <= Segments(k.1) || Segments(to) <= Segments(k.1))
    case _ => false
  }

  ghost predicate Untouched(es: seq<Event>, k: Key) {
    forall e <- es :: !Touches(e, k)
  }

  /** Everything but the index flag. */
  predicate SameDocument(d: Doc, e: Doc) {
    d.id == e.id && d.user == e.user && d.path == e.path && d.text == e.text && d.hash == e.hash && d.version == e.version
  }

  predicate SameAt(s: Store, t: Store, k: Key) {
    (k in s.docs <==> k in t.docs) && (k in s.docs && k in t.docs ==> SameDocument(s.docs[k], t.docs[k]))
  }

  lemma {:induction false} MoveStays(s: Store, order: seq<Doc>, from: Path, to: Path, now: int, k: Key)
    requires forall d <- order :: InTree(d.path, from)
    requires forall d <- order :: d.user == k.0 ==> !(Segments(from) <= Segments(k.1)) && !(Segments(to) <= Segments(k.1))
    ensures SameAt(s, MoveDocs(s, order, from, to, now), k)
    decreases |order|
  {
    if order != [] {
      var n := |order| - 1;
      var d := order[n];
      assert d in order && InTree(d.path, from);
      MoveStays(s, order[..n], from, to, now, k);
      TreeIsSegments(d.path, from);
      MovedSegments(d.path, from, to);
    }
  }

  lemma {:induction false} JobsLeaveDocs(s: Store, order: seq<Doc>, now: int)
    ensures PushJobs(s, order, now).docs == s.docs
  {
    if order != [] { JobsLeaveDocs(s, order[..|order| - 1], now); }
  }

  lemma StoreEventStays(s: System, e: Event, k: Key)
    requires !Touches(e, k) && (e.Write? || e.Remove? || e.Move? || e.Reindex? || e.Retry?)
    ensures SameAt(s.store, Step(s, e).store, k)
  {
    hide Segments, InTree, MatchesPrefix, RetryApplies;
    match e {
      case Move(user, order, from, to, now) =>
        if Enumerates(order, s.store, user, p => InTree(p, from)) && (forall d <- order :: InTree(d.path, from)) {
          MoveStays(s.store, order, from, to, now, k);
        }
      case Reindex(user, order, prefix, now) => JobsLeaveDocs(s.store, order, now);
      case _ =>
    }
  }

  lemma RowEventStays(s: System, e: Event, k: Key)
    requires e.Persist? || e.PurgeRows?
    ensures SameAt(s.store, Step(s, e).store, k)
  {
    hide ChunksOf;
  }

  lemma WorkerEventStays(s: System, e: Event, k: Key)
    requires e.Claim? || e.Take? || e.Load? || e.Clear? || e.Upsert? || e.Purge? || e.Complete? || e.Fail? || e.Crash?
    ensures SameAt(s.store, Step(s, e).store, k)
  {
    hide ClaimUpTo, ChunksOf, TooLarge, PartialEffect, Batch, BatchEnd, PointsOf, BumpAll, Bump, FailedRows, SetStatus, SourceIsCurrent, Lookup, Held, Ids;
  }

  /** An event that does not touch a key leaves its document there, whatever the workers are doing. */
  lemma EventStays(s: System, e: Event, k: Key)
    requires !Touches(e, k)
    ensures SameAt(s.store, Step(s, e).store, k)
  {
    hide Step, SameAt, Touches;
    if e.Write? || e.Remove? || e.Move? || e.Reindex? || e.Retry? {
      StoreEventStays(s, e, k);
    } else if e.Persist? || e.PurgeRows? {
      RowEventStays(s, e, k);
    } else {
      WorkerEventStays(s, e, k);
    }
  }

  lemma {:induction false} RunStaysTo(es: seq<Event>, i: nat, n: nat, k: Key)
    requires i <= n <= |es| && Untouched(es[i..n], k)
    ensures SameAt(Run(es[..i]).store, Run(es[..n]).store, k)
    decreases n
  {
    hide Touches, Step;
    if i < n {
      assert es[i..n - 1] == es[i..n][..n - 1 - i] && es[n - 1] in es[i..n];
      forall e | e in es[i..n - 1] ensures !Touches(e, k) { assert e in es[i..n]; }
      RunStaysTo(es, i, n - 1, k);
      assert es[..n][..n - 1] == es[..n - 1];
      EventStays(Run(es[..n - 1]), es[n - 1], k);
    }
  }

  lemma RunStays(es: seq<Event>, i: nat, k: Key)
    requires i <= |es| && Untouched(es[i..], k)
    ensures SameAt(Run(es[..i]).store, Run(es).store, k)
  {
    hide *;
    assert es[i..|es|] == es[i..] && es[..|es|] == es;
    RunStaysTo(es, i, |es|, k);
  }

  function VersionAt(s: Store, k: Key): nat {
    if k in s.docs then s.docs[k].version else 0
  }

  /** The write at position `i` expects nothing, or the version that is there. */
  ghost predicate Accepted(es: seq<Event>, i: nat)
    requires i < |es| && es[i].Write?
  {
    es[i].expected == None || es[i].expected == Some(VersionAt(Run(es[..i]).store, (es[i].user, es[i].path)))
  }

  /** The next version of the text is stored and one job for it is queued, unless the expected version is another one. */
  lemma WriteChanges(s: System, e: Event)
    requires e.Write?
    ensures var k, t := (e.user, e.path), Step(s, e).store;
      if e.expected.Some? && e.expected.value != VersionAt(s.store, k) then t == s.store
      else
        && k in t.docs && t.docs[k].text == e.text && t.docs[k].hash == e.hash && t.docs[k].version == VersionAt(s.store, k) + 1
        && (k in s.store.docs ==> t.docs[k].id == s.store.docs[k].id) && !t.docs[k].indexed
        && t.jobs == s.store.jobs + [Job(|s.store.jobs|, e.user, t.docs[k].id, t.docs[k].version, e.hash, IndexMarkdown, Pending, 0, e.now, None)]
  {}

  /** A write changes nothing at all exactly when it expects another version than the one stored. */
  lemma WriteRefusedIff(es: seq<Event>, i: nat)
    requires i < |es| && es[i].Write?
    ensures Run(es[..i + 1]) == Run(es[..i]) <==> !Accepted(es, i)
  {
    assert es[..i + 1][..i] == es[..i];
    WriteChanges(Run(es[..i]), es[i]);
  }

  /** A removal changes nothing exactly when there is no document, or another version than the one expected. */
  lemma RemovalRefusedIff(es: seq<Event>, i: nat)
    requires i < |es| && es[i].Remove?
    ensures var k, s := (es[i].user, es[i].path), Run(es[..i]).store;
      Run(es[..i + 1]) == Run(es[..i]) <==> k !in s.docs || (es[i].expected.Some? && es[i].expected.value != s.docs[k].version)
  {
    assert es[..i + 1][..i] == es[..i];
  }

  /** What is read at a path is what was last written there, as long as nothing else touches it. */
  lemma LastWriteIsRead(es: seq<Event>, i: nat)
    requires i < |es| && es[i].Write? && Accepted(es, i) && Untouched(es[i + 1..], (es[i].user, es[i].path))
    ensures var k, s := (es[i].user, es[i].path), Run(es).store;
      && k in s.docs && s.docs[k].text == es[i].text && s.docs[k].hash == es[i].hash
      && s.docs[k].version == VersionAt(Run(es[..i]).store, k) + 1
      && (k in Run(es[..i]).store.docs ==> s.docs[k].id == Run(es[..i]).store.docs[k].id)
  {
    assert es[..i + 1][..i] == es[..i];
    WriteChanges(Run(es[..i]), es[i]);
    hide Step, Untouched;
    RunStays(es, i + 1, (es[i].user, es[i].path));
  }

  lemma RemovalEmpties(s: System, e: Event)
    requires e.Remove? && e.expected == None
    ensures (e.user, e.path) !in Step(s, e).store.docs
  {}

  /** A path that was removed stays empty, as long as nothing else touches it. */
  lemma RemovedIsGone(es: seq<Event>, i: nat)
    requires i < |es| && es[i].Remove? && es[i].expected == None && Untouched(es[i + 1..], (es[i].user, es[i].path))
    ensures (es[i].user, es[i].path) !in Run(es).store.docs
  {
    assert es[..i + 1][..i] == es[..i];
    RemovalEmpties(Run(es[..i]), es[i]);
    hide Step, Untouched;
    RunStays(es, i + 1, (es[i].user, es[i].path));
  }

  /** Nothing takes the document away from its path; writes to it are allowed. */
  ghost predicate OnlyWritten(es: seq<Event>, k: Key) {
    forall e <- es :: Touches(e, k) ==> e.Write?
  }

  lemma {:induction false} VersionsGrow(es: seq<Event>, i: nat, n: nat, k: Key)
    requires i <= n <= |es| && OnlyWritten(es[i..n], k)
    ensures VersionAt(Run(es[..i]).store, k) <= VersionAt(Run(es[..n]).store, k)
    decreases n
  {
    hide Step;
    if i < n {
      var e := es[n - 1];
      assert e in es[i..n];
      forall f | f in es[i..n - 1] ensures Touches(f, k) ==> f.Write? { assert f in es[i..n]; }
      VersionsGrow(es, i, n - 1, k);
      assert es[..n][..n - 1] == es[..n - 1];
      if Touches(e, k) {
        WriteGrows(Run(es[..n - 1]), e, k);
      } else {
        EventStays(Run(es[..n - 1]), e, k);
      }
    }
  }

  lemma WriteGrows(s: System, e: Event, k: Key)
    requires e.Write?
    ensures VersionAt(s.store, k) <= VersionAt(Step(s, e).store, k)
  {}

  /**
   No lost update: of two writers that read the same version of a document, only one succeeds, whatever
   else is written in between; the other write changes nothing.
   */
  lemma NoLostUpdate(es: seq<Event>, i: nat, j: nat)
    requires i < j < |es| && es[i].Write? && es[j].Write?
    requires (es[i].user, es[i].path) == (es[j].user, es[j].path) && es[i].expected.Some? && es[i].expected == es[j].expected
    requires Accepted(es, i) && OnlyWritten(es[i + 1..j], (es[i].user, es[i].path))
    ensures Run(es[..j + 1]) == Run(es[..j])
  {
    var k := (es[i].user, es[i].path);
    assert es[..i + 1][..i] == es[..i];
    WriteChanges(Run(es[..i]), es[i]);
    hide Step;
    VersionsGrow(es, i + 1, j, k);
    WriteRefusedIff(es, j);
  }
}
