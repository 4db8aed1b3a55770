/**
  The in-flight table `ongoing` of `api_convert` and its two locked regions:
  look up the key and submit a conversion when it is absent, and, after the
  conversion's result was collected, `ongoing.pop(key, None)`. Each locked
  region is one atomic step on a `Table`.
 */
module InFlight {
  import opened Common
  import opened CacheKeys

  /** A future handed out by `executor.submit`: the position of its submission in the log. */
  type Handle = nat

  /** One `executor.submit(convert_and_cache, file_id)`, made for `key`. */
  datatype Submission = Submission(key: Key, fileId: string)

  /**
    `ongoing` (key to future) together with the log of every submission made
    so far; handle `h` is the future of `submitted[h]`.
   */
  datatype Table = Table(ongoing: map<Key, Handle>, submitted: seq<Submission>)

  /** No table entry was invented: each names a submission made for its own key. */
  ghost predicate ValidTable(t: Table)
  {
    forall k :: k in t.ongoing ==> t.ongoing[k] < |t.submitted| && t.submitted[t.ongoing[k]].key == k
  }

  const Empty := Table(map[], [])

  datatype Registration = Registration(table: Table, handle: Handle)

  /**
    The region under `ongoing_lock` at the start of a request: the existing
    future for `key`, or a new submission registered under `key`.
   */
  function Register(t: Table, key: Key, fileId: string): (r: Registration)
    ensures key in r.table.ongoing && r.table.ongoing[key] == r.handle
    ensures r.table.ongoing - {key} == t.ongoing - {key}
    ensures key in t.ongoing ==> r.table == t
    ensures key !in t.ongoing ==>
              r.handle == |t.submitted| && r.table.submitted == t.submitted + [Submission(key, fileId)]
    ensures ValidTable(t) ==>
              (ValidTable(r.table) && r.handle < |r.table.submitted| && r.table.submitted[r.handle].key == key)
  {
    if key in t.ongoing then Registration(t, t.ongoing[key])
    else
      var h := |t.submitted|;
      Registration(Table(t.ongoing[key := h], t.submitted + [Submission(key, fileId)]), h)
  }

  /** The region under `ongoing_lock` in the `finally`: `ongoing.pop(key, None)`. */
  function Leave(t: Table, key: Key): (r: Table)
    ensures key !in r.ongoing && r.submitted == t.submitted
    ensures forall k :: k != key ==> (k in r.ongoing <==> k in t.ongoing)
    ensures forall k :: k != key && k in t.ongoing ==> r.ongoing[k] == t.ongoing[k]
    ensures key !in t.ongoing ==> r == t
    ensures ValidTable(t) ==> ValidTable(r)
  {
    Table(t.ongoing - {key}, t.submitted)
  }

  /** Popping twice is popping once: only the first finisher changes the table. */
  lemma LeaveIdempotent(t: Table, key: Key)
    ensures Leave(Leave(t, key), key) == Leave(t, key)
  {
  }

  /**
    After the entry is cleared, a request for the same key starts from
    "absent" again and submits a new conversion: no outcome is remembered.
   */
  lemma RegisterAfterLeaveSubmits(t: Table, key: Key, fileId: string)
    ensures var r := Register(Leave(t, key), key, fileId);
            r.handle == |t.submitted| && r.table.submitted == t.submitted + [Submission(key, fileId)]
  {
  }

  /** The number of submissions made for `key`. */
  function SubmitsFor(subs: seq<Submission>, key: Key): nat
  {
    if subs == [] then 0
    else SubmitsFor(subs[..|subs| - 1], key) + (if subs[|subs| - 1].key == key then 1 else 0)
  }

  /** One atomic step of some request: the first locked region, or the second. */
  datatype Step = Join(key: Key, fileId: string) | Done(key: Key)

  datatype Trace = Trace(table: Table, replies: seq<Option<Handle>>)

  /** Runs the steps in order; each `Join` is answered with the handle it obtains. */
  function Run(t: Table, steps: seq<Step>): (r: Trace)
    ensures |r.replies| == |steps|
    ensures forall i :: 0 <= i < |steps| ==> (r.replies[i].Some? <==> steps[i].Join?)
    ensures |t.submitted| <= |r.table.submitted| && r.table.submitted[..|t.submitted|] == t.submitted
    ensures ValidTable(t) ==>
              forall i :: 0 <= i < |steps| && steps[i].Join? ==>
                r.replies[i].value < |r.table.submitted| && r.table.submitted[r.replies[i].value].key == steps[i].key
    decreases |steps|
  {
    if steps == [] then Trace(t, [])
    else
      match steps[0]
      case Join(k, id) =>
        var g := Register(t, k, id);
        var rest := Run(g.table, steps[1..]);
        Trace(rest.table, [Some(g.handle)] + rest.replies)
      case Done(k) =>
        var rest := Run(Leave(t, k), steps[1..]);
        Trace(rest.table, [None] + rest.replies)
  }

  /** No request finishes with `key` during the steps. */
  predicate NoDone(steps: seq<Step>, key: Key)
  {
    forall i :: 0 <= i < |steps| ==> steps[i] != Done(key)
  }

  /** Some request asks for `key` during the steps. */
  predicate HasJoin(steps: seq<Step>, key: Key)
  {
    exists i :: 0 <= i < |steps| && steps[i].Join? && steps[i].key == key
  }

  lemma {:induction false} SubmitsForAppend(subs: seq<Submission>, s: Submission, key: Key)
    ensures SubmitsFor(subs + [s], key) == SubmitsFor(subs, key) + (if s.key == key then 1 else 0)
  {
    assert (subs + [s])[..|subs|] == subs;
  }

  /** Every step keeps the table's entries pointing at submissions for their own keys. */
  lemma {:induction false} RunKeepsValid(t: Table, steps: seq<Step>)
    requires ValidTable(t)
    ensures ValidTable(Run(t, steps).table)
    decreases |steps|
  {
    if steps != [] {
      match steps[0]
      case Join(k, id) =>
        RunKeepsValid(Register(t, k, id).table, steps[1..]);
      case Done(k) =>
        RunKeepsValid(Leave(t, k), steps[1..]);
    }
  }

  /**
    While a key stays registered, whatever other requests do, its entry keeps
    the same future and no further conversion is submitted for it.
   */
  lemma {:induction false} EntryStable(t: Table, key: Key, steps: seq<Step>)
    requires key in t.ongoing && NoDone(steps, key)
    ensures var r := Run(t, steps);
            key in r.table.ongoing && r.table.ongoing[key] == t.ongoing[key] &&
            SubmitsFor(r.table.submitted, key) == SubmitsFor(t.submitted, key)
    decreases |steps|
  {
    if steps != [] {
      assert NoDone(steps[1..], key) by {
        forall i | 0 <= i < |steps[1..]| ensures steps[1..][i] != Done(key) {
          assert steps[1..][i] == steps[i + 1];
        }
      }
      match steps[0]
      case Join(k, id) =>
        var g := Register(t, k, id);
        if k != key {
          SubmitsForAppend(t.submitted, Submission(k, id), key);
        }
        EntryStable(g.table, key, steps[1..]);
      case Done(k) =>
        EntryStable(Leave(t, k), key, steps[1..]);
    }
  }

  /**
    Single flight: between registration and completion (no `Done` for the
    key), any number of requests for a key, interleaved with requests for
    other keys, submit exactly one conversion for it when it was absent and
    none when it was already registered.
   */
  lemma {:induction false} SingleSubmit(t: Table, key: Key, steps: seq<Step>)
    requires NoDone(steps, key)
    ensures SubmitsFor(Run(t, steps).table.submitted, key) ==
            SubmitsFor(t.submitted, key) + (if key !in t.ongoing && HasJoin(steps, key) then 1 else 0)
    decreases |steps|
  {
    if key in t.ongoing {
      EntryStable(t, key, steps);
    } else if steps != [] {
      assert NoDone(steps[1..], key) by {
        forall i | 0 <= i < |steps[1..]| ensures steps[1..][i] != Done(key) {
          assert steps[1..][i] == steps[i + 1];
        }
      }
      match steps[0]
      case Join(k, id) =>
        var g := Register(t, k, id);
        SubmitsForAppend(t.submitted, Submission(k, id), key);
        if k == key {
          EntryStable(g.table, key, steps[1..]);
        } else {
          SingleSubmit(g.table, key, steps[1..]);
          HasJoinTail(steps, key);
        }
      case Done(k) =>
        SingleSubmit(Leave(t, k), key, steps[1..]);
        HasJoinTail(steps, key);
    }
  }

  lemma HasJoinTail(steps: seq<Step>, key: Key)
    requires steps != [] && !(steps[0].Join? && steps[0].key == key)
    ensures HasJoin(steps, key) <==> HasJoin(steps[1..], key)
  {
    if HasJoin(steps, key) {
      var i :| 0 <= i < |steps| && steps[i].Join? && steps[i].key == key;
      assert steps[1..][i - 1] == steps[i];
    }
    if HasJoin(steps[1..], key) {
      var i :| 0 <= i < |steps[1..]| && steps[1..][i].Join? && steps[1..][i].key == key;
      assert steps[i + 1] == steps[1..][i];
    }
  }

  /**
    Every request for a key made before any completion for it holds the same
    future: the one the table keeps for the key at the end.
   */
  lemma {:induction false} SameHandle(t: Table, key: Key, steps: seq<Step>)
    requires NoDone(steps, key)
    ensures var r := Run(t, steps);
            forall i :: 0 <= i < |steps| && steps[i].Join? && steps[i].key == key ==>
              key in r.table.ongoing && r.replies[i] == Some(r.table.ongoing[key])
    decreases |steps|
  {
    if steps != [] {
      assert NoDone(steps[1..], key) by {
        forall i | 0 <= i < |steps[1..]| ensures steps[1..][i] != Done(key) {
          assert steps[1..][i] == steps[i + 1];
        }
      }
      var r := Run(t, steps);
      var t1 := match steps[0] case Join(k, id) => Register(t, k, id).table case Done(k) => Leave(t, k);
      var rest := Run(t1, steps[1..]);
      assert r.table == rest.table && r.replies[1..] == rest.replies;
      SameHandle(t1, key, steps[1..]);
      if steps[0].Join? && steps[0].key == key {
        EntryStable(t1, key, steps[1..]);
      }
      forall i | 0 <= i < |steps| && steps[i].Join? && steps[i].key == key
        ensures key in r.table.ongoing && r.replies[i] == Some(r.table.ongoing[key])
      {
        if i > 0 {
          assert steps[1..][i - 1] == steps[i];
          assert r.replies[i] == rest.replies[i - 1];
        }
      }
    }
  }

  /**
    `pop(key, None)` removes whatever future is registered, not necessarily
    the caller's own. A late finisher can therefore clear the entry of a newer
    submission, and a further request submits a third conversion while the
    second may still be running. Requests A and B share job 0; job 0 fails;
    A pops; C finds no artifact and submits job 1; B pops job 1's entry; D
    submits job 2.
   */
  lemma StalePopAllowsOverlap(k: Key, id: string)
    ensures var a := Register(Empty, k, id);
            var b := Register(a.table, k, id);
            var c := Register(Leave(b.table, k), k, id);
            var d := Register(Leave(c.table, k), k, id);
            a.handle == 0 && b.handle == 0 && c.handle == 1 && d.handle == 2 &&
            SubmitsFor(d.table.submitted, k) == 3
  {
    var a := Register(Empty, k, id);
    var b := Register(a.table, k, id);
    var c := Register(Leave(b.table, k), k, id);
    var d := Register(Leave(c.table, k), k, id);
    var job := Submission(k, id);
    SubmitsForAppend(Empty.submitted, job, k);
    SubmitsForAppend(a.table.submitted, job, k);
    SubmitsForAppend(c.table.submitted, job, k);
  }
}
