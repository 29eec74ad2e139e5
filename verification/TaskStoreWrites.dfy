/** What comes of a write over the histories of the task store: it takes effect exactly when it may, it stays until
  * the next write to its task, and a copy that somebody else has overtaken never gets in. */
module TaskStoreWrites {
  import opened Wrappers
  import opened TaskState
  import opened TaskStore

  // ----- single operations -----

  /** A put goes in if and only if it has an id and a key and, where the task is already stored, moves its status
    * along an edge or not at all and is no older than what is stored. Then it is what both indexes answer, with the
    * new update time; otherwise nothing changes. */
  lemma PutTakesEffect(st: State, t: Task, now: int)
    ensures var e := After(st, OpPut(t), now);
            if t.id != "" && t.cacheKey != ""
               && (t.id in st.byID ==>
                     (st.byID[t.id].status == t.status || Can(st.byID[t.id].status, t.status))
                     && st.byID[t.id].updatedAt <= t.updatedAt)
            then
              && t.id in e.byID && e.byID[t.id] == t.(createdAt := e.byID[t.id].createdAt, updatedAt := now)
              && e.byID[t.id].createdAt == (if t.createdAt == 0 then now else t.createdAt)
              && e.byID == st.byID[t.id := e.byID[t.id]] && e.byKey == st.byKey[t.cacheKey := e.byID[t.id]]
            else e == st
  {
  }

  /** Only a missing id or key and a forbidden move are reported; an outdated copy is dropped in silence. */
  lemma PutReports(st: State, t: Task, now: int)
    ensures PutResult(st, t, now) == Err(Invalid) <==> t.id == "" || t.cacheKey == ""
    ensures PutResult(st, t, now) == Err(Conflict) <==>
              t.id != "" && t.cacheKey != "" && t.id in st.byID
              && st.byID[t.id].status != t.status && !Can(st.byID[t.id].status, t.status)
    ensures PutResult(st, t, now).Err? ==> PutResult(st, t, now).error in {Invalid, Conflict}
  {
  }

  /** An update goes in if and only if its task is stored and its change moves the status along an edge or not at all. */
  lemma UpdateTakesEffect(st: State, id: string, change: Task -> Task, now: int)
    requires id in st.byID ==> change(st.byID[id]).id == id
    ensures var e := After(st, OpUpdate(id, change), now);
            if id in st.byID
               && (st.byID[id].status == change(st.byID[id]).status || Can(st.byID[id].status, change(st.byID[id]).status))
            then
              var w := change(st.byID[id]).(updatedAt := now);
              e.byID == st.byID[id := w] && e.byKey == st.byKey[w.cacheKey := w]
            else e == st
    ensures UpdateResult(st, id, change, now) == Err(NotFound) <==> id !in st.byID
  {
  }

  /** A delete takes its task, and the answer for the key only if that is the same task. */
  lemma DeleteTakesEffect(st: State, id: string, now: int)
    ensures var e := After(st, OpDelete(id), now);
            && e.byID == st.byID - {id}
            && forall k :: (k in e.byKey ==> k in st.byKey && e.byKey[k] == st.byKey[k])
                        && (k in st.byKey && k !in e.byKey <==>
                              k in st.byKey && id in st.byID && st.byID[id].cacheKey == k && st.byKey[k].id == id)
  {
    if id !in st.byID { assert st.byID - {id} == st.byID; }
  }

  // ----- histories -----

  predicate Names(op: Op, id: string) {
    (op.OpPut? && op.t.id == id) || (op.OpUpdate? && op.id == id) || (op.OpDelete? && op.id == id)
  }

  lemma StepLeaves(st: State, op: Op, now: int, id: string)
    requires Indexed(st) && Past(st, now) && Faithful(st, op) && !Names(op, id)
    ensures var e := After(st, op, now);
            (id in e.byID <==> id in st.byID) && (id in st.byID ==> e.byID[id] == st.byID[id])
  {
    if op.OpReload? { ReloadKeepsAnswers(st, op.list); }
  }

  /** What is stored under an id stays, through reloads too, until an operation names that id. */
  lemma {:induction false} StoredStays(st: State, ops: seq<Op>, now: int, id: string)
    requires Indexed(st) && Past(st, now + 1) && History(st, ops, now)
    requires forall i :: 0 <= i < |ops| ==> !Names(ops[i], id)
    ensures var e := Final(st, ops, now);
            (id in e.byID <==> id in st.byID) && (id in st.byID ==> e.byID[id] == st.byID[id])
    decreases |ops|
  {
    if ops != [] {
      StepLeaves(st, ops[0], now + 1, id);
      StepKeepsIndex(st, ops[0], now + 1);
      StoredStays(After(st, ops[0], now + 1), ops[1..], now + 1, id);
    }
  }

  lemma StepRenews(st: State, op: Op, now: int, id: string)
    requires Indexed(st) && Past(st, now) && Faithful(st, op)
    ensures var e := After(st, op, now);
            id in e.byID ==> (id in st.byID && e.byID[id] == st.byID[id]) || e.byID[id].updatedAt == now
  {
    if !Names(op, id) { StepLeaves(st, op, now, id); }
  }

  /** A stored task is either the one that was there before the history or was updated in it. */
  lemma {:induction false} SameOrLater(st: State, ops: seq<Op>, now: int, id: string)
    requires Indexed(st) && Past(st, now + 1) && History(st, ops, now)
    ensures var e := Final(st, ops, now);
            id in e.byID ==> (id in st.byID && e.byID[id] == st.byID[id]) || now < e.byID[id].updatedAt
    decreases |ops|
  {
    if ops != [] {
      StepRenews(st, ops[0], now + 1, id);
      StepKeepsIndex(st, ops[0], now + 1);
      SameOrLater(After(st, ops[0], now + 1), ops[1..], now + 1, id);
    }
  }

  /** Lost updates do not happen through Put: whoever read a task and puts a changed copy of it after somebody
    * else has written the task changes nothing, and if nobody has, the copy goes in unless it is refused. */
  lemma StaleCopyIgnored(st: State, ops: seq<Op>, now: int, id: string, copy: Task, later: int)
    requires Indexed(st) && Past(st, now + 1) && History(st, ops, now) && id in st.byID && id in Final(st, ops, now).byID
    requires copy.id == id && copy.updatedAt == st.byID[id].updatedAt
    ensures var e := Final(st, ops, now);
            && (e.byID[id] != st.byID[id] ==> After(e, OpPut(copy), later) == e)
            && (e.byID[id] == st.byID[id] && id != "" && copy.cacheKey != "" && Allowed(st.byID[id].status, copy.status) ==>
                  var w := After(e, OpPut(copy), later);
                  id in w.byID && w.byID[id].status == copy.status && w.byID[id].updatedAt == later)
  {
    SameOrLater(st, ops, now, id);
  }

  /** Whatever was written last under an id is what Get answers, however the store was used and reloaded since,
    * as long as nobody named the id. */
  lemma ReadYourWrite(st: State, t: Task, ops: seq<Op>, now: int)
    requires Indexed(st) && Past(st, now + 1) && History(st, [OpPut(t)] + ops, now)
    requires t.id != "" && t.cacheKey != "" && t.id !in st.byID && t.createdAt != 0
    requires forall i :: 0 <= i < |ops| ==> !Names(ops[i], t.id)
    ensures var e := Final(st, [OpPut(t)] + ops, now);
            t.id in e.byID && e.byID[t.id] == t.(updatedAt := now + 1)
  {
    assert ([OpPut(t)] + ops)[1..] == ops;
    PutTakesEffect(st, t, now + 1);
    StepKeepsIndex(st, OpPut(t), now + 1);
    StoredStays(After(st, OpPut(t), now + 1), ops, now + 1, t.id);
  }
}
