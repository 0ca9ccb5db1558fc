/**
 The rows of the tables, column by column, read off the history of calls instead of computed step by step: which
 call made a row, and which later call wrote each column last.
 */
module History {
  import opened Tables
  import opened Operations

  /** The last call of that kind. */
  function Last(f: Op -> bool, log: seq<Op>): (r: Option<Op>)
    ensures r.Some? ==> f(r.value) && r.value in log
    ensures r.None? ==> forall op :: op in log ==> !f(op)
  {
    if log == [] then None
    else if f(log[|log| - 1]) then Some(log[|log| - 1])
    else
      var r := Last(f, log[..|log| - 1]);
      assert log == log[..|log| - 1] + [log[|log| - 1]];
      r
  }

  /** The history from the first call of that kind on, which is the life of the row that it makes. */
  function Since(f: Op -> bool, log: seq<Op>): (r: seq<Op>)
    ensures r != [] ==> f(r[0])
    ensures r == [] ==> forall op :: op in log ==> !f(op)
  {
    if log == [] then [] else
      var front, op := log[..|log| - 1], log[|log| - 1];
      var life := Since(f, front);
      assert log == front + [op];
      if life != [] then life + [op] else if f(op) then [op] else []
  }

  function MakesPod(u: UID): Op -> bool { (op: Op) => op.InsertPod? && op.uid == u }

  function EndsPod(u: UID): Op -> bool { (op: Op) => op.DeletePod? && op.uid == u }

  function MakesPV(u: UID): Op -> bool { (op: Op) => op.InsertPV? && op.uid == u }

  function ChangesPV(u: UID): Op -> bool { (op: Op) => op.UpdatePV? && op.uid == u }

  function EndsPV(u: UID): Op -> bool { (op: Op) => op.DeletePV? && op.uid == u }

  function MakesClaim(u: UID): Op -> bool { (op: Op) => (op.InsertPVC? || op.BindPVC?) && op.uid == u }

  function NamesClaim(u: UID): Op -> bool { (op: Op) => op.InsertPVC? && op.uid == u }

  function DescribesClaim(u: UID): Op -> bool { (op: Op) => (op.InsertPVC? || op.UpdatePVC?) && op.uid == u }

  function EndsClaim(u: UID): Op -> bool { (op: Op) => op.DeletePVC? && op.uid == u }

  function BindsClaim(u: UID): Op -> bool { (op: Op) => op.BindPVC? && op.uid == u }

  // ------------------------------------------------------------------ rows from histories

  function DeleteTimeIn(end: Option<Op>): Option<Time>
    requires end.Some? ==> end.value.DeletePod? || end.value.DeletePV? || end.value.DeletePVC?
  {
    if end.Some? then Some(end.value.deleteTime) else None
  }

  /** A pod: the first insert, which later ones do not change, and the last deletion since. */
  function PodFrom(log: seq<Op>, u: UID): Option<PodRow> {
    var life := Since(MakesPod(u), log);
    if life == [] then None else
      Some(PodRow(life[0].name, life[0].createTime, DeleteTimeIn(Last(EndsPod(u), life)), life[0].namespace, life[0].json))
  }

  /** A PV: its name and create time from the first insert, the rest from the last update since, if any. */
  function PVFrom(log: seq<Op>, u: UID): Option<PVRow> {
    var life := Since(MakesPV(u), log);
    if life == [] then None else
      var update := Last(ChangesPV(u), life);
      var writer := if update.Some? then update.value else life[0];
      Some(PVRow(life[0].name, life[0].createTime, DeleteTimeIn(Last(EndsPV(u), life)), writer.storage, writer.accessModes, writer.json,
                 if writer.backend.NFS? then writer.backendId else 0, if writer.backend.ISCSI? then writer.backendId else 0))
  }

  /**
   A claim: the row is made by an insert or a bind; each group of columns is that of the last call since then that
   writes the group, and NULL when there was none.
   */
  function ClaimFrom(log: seq<Op>, u: UID): Option<PVCRow> {
    var life := Since(MakesClaim(u), log);
    if life == [] then None else
      var name, text, bind := Last(NamesClaim(u), life), Last(DescribesClaim(u), life), Last(BindsClaim(u), life);
      Some(PVCRow(
        if name.Some? then Some(name.value.name) else None,
        if name.Some? then Some(name.value.createTime) else None,
        DeleteTimeIn(Last(EndsClaim(u), life)),
        if bind.Some? then Some(bind.value.bindTime) else None,
        if name.Some? then Some(name.value.namespace) else None,
        if text.Some? then Some(text.value.storage) else None,
        if text.Some? then Some(text.value.accessModes) else None,
        if text.Some? then Some(text.value.json) else None,
        if bind.Some? then Some(bind.value.pvUid) else None))
  }

  /** The call is refused: the object was inserted before, or the bind repeats the last one of the claim. */
  predicate Refused(log: seq<Op>, op: Op) {
    match op
    case InsertPod(uid, _, _, _, _, _, _, _) => Since(MakesPod(uid), log) != []
    case InsertPV(uid, _, _, _, _, _, _, _, _) => Since(MakesPV(uid), log) != []
    case BindPVC(pv, uid, t, _) =>
      var bind := Last(BindsClaim(uid), log);
      bind.Some? && bind.value.pvUid == pv && bind.value.bindTime == t
    case _ => false
  }

  /** The version of the last call for that key that was not refused. */
  function VersionFrom(log: seq<Op>, key: RVKey): Option<RV> {
    if log == [] then None else
      var front, op := log[..|log| - 1], log[|log| - 1];
      if StoresUnder(op) == Some(key) && !Refused(front, op) then Some(op.rv) else VersionFrom(front, key)
  }

  // ------------------------------------------------------------------ the tables are their history

  lemma LastOf(f: Op -> bool, log: seq<Op>, op: Op)
    ensures Last(f, log + [op]) == if f(op) then Some(op) else Last(f, log)
  {
    assert (log + [op])[..|log|] == log;
  }

  lemma SinceOf(f: Op -> bool, log: seq<Op>, op: Op)
    ensures Since(f, log + [op]) == if Since(f, log) != [] then Since(f, log) + [op] else if f(op) then [op] else []
  {
    assert (log + [op])[..|log|] == log;
  }

  lemma LastOfOne(f: Op -> bool, op: Op)
    ensures Last(f, [op]) == if f(op) then Some(op) else None
  {
    assert [op][..0] == [];
  }

  lemma PodHistoryStep(log: seq<Op>, db: DB, op: Op, u: UID)
    requires Lookup(db.pod, u) == PodFrom(log, u)
    ensures Lookup(Apply(db, op).pod, u) == PodFrom(log + [op], u)
  {
    hide Last, Since;
    var life := Since(MakesPod(u), log);
    SinceOf(MakesPod(u), log, op);
    LastOf(EndsPod(u), life, op);
    LastOfOne(EndsPod(u), op);
  }

  lemma PVHistoryStep(log: seq<Op>, db: DB, op: Op, u: UID)
    requires Lookup(db.pv, u) == PVFrom(log, u)
    ensures Lookup(Apply(db, op).pv, u) == PVFrom(log + [op], u)
  {
    hide Last, Since;
    var life := Since(MakesPV(u), log);
    SinceOf(MakesPV(u), log, op);
    LastOf(EndsPV(u), life, op);
    LastOf(ChangesPV(u), life, op);
    LastOfOne(EndsPV(u), op);
    LastOfOne(ChangesPV(u), op);
  }

  lemma ClaimHistoryStep(log: seq<Op>, db: DB, op: Op, u: UID)
    requires Lookup(db.pvc, u) == ClaimFrom(log, u)
    ensures Lookup(Apply(db, op).pvc, u) == ClaimFrom(log + [op], u)
  {
    hide Last, Since;
    var life := Since(MakesClaim(u), log);
    SinceOf(MakesClaim(u), log, op);
    if life != [] {
      LastOf(EndsClaim(u), life, op);
      LastOf(NamesClaim(u), life, op);
      LastOf(DescribesClaim(u), life, op);
      LastOf(BindsClaim(u), life, op);
    } else {
      LastOfOne(EndsClaim(u), op);
      LastOfOne(NamesClaim(u), op);
      LastOfOne(DescribesClaim(u), op);
      LastOfOne(BindsClaim(u), op);
    }
  }

  /** Calls that can make the row are never before it. */
  lemma {:induction false} MakersAreAlive(f: Op -> bool, log: seq<Op>, u: UID)
    requires forall op :: f(op) ==> MakesClaim(u)(op)
    ensures Last(f, log) == Last(f, Since(MakesClaim(u), log))
  {
    if log != [] {
      var front, op := log[..|log| - 1], log[|log| - 1];
      assert log == front + [op];
      MakersAreAlive(f, front, u);
      LastOf(f, Since(MakesClaim(u), front), op);
      LastOfOne(f, op);
    }
  }

  /** A call is refused by the tables exactly when its history refuses it. */
  lemma RefusedIff(log: seq<Op>, db: DB, op: Op)
    requires op.InsertPod? ==> Lookup(db.pod, op.uid) == PodFrom(log, op.uid)
    requires op.InsertPV? ==> Lookup(db.pv, op.uid) == PVFrom(log, op.uid)
    requires op.BindPVC? ==> Lookup(db.pvc, op.uid) == ClaimFrom(log, op.uid)
    ensures Body(db, op).Failed? <==> Refused(log, op)
  {
    hide Last, Since;
    if op.BindPVC? {
      MakersAreAlive(BindsClaim(op.uid), log, op.uid);
      assert Since(MakesClaim(op.uid), log) == [] ==> Last(BindsClaim(op.uid), log).None?;
    }
  }

  /**
   After any calls, in any order, repeated or not, every row and every stored version is the one that the history
   says; so no call writes a column that is not its own, and none is lost.
   */
  lemma {:induction false} TablesAreTheirHistory(log: seq<Op>)
    ensures forall u :: Lookup(Run(EMPTY_DB, log).pod, u) == PodFrom(log, u)
    ensures forall u :: Lookup(Run(EMPTY_DB, log).pv, u) == PVFrom(log, u)
    ensures forall u :: Lookup(Run(EMPTY_DB, log).pvc, u) == ClaimFrom(log, u)
    ensures forall key :: Lookup(Run(EMPTY_DB, log).rv, key) == VersionFrom(log, key)
  {
    if log != [] {
      var front, op := log[..|log| - 1], log[|log| - 1];
      var db, db' := Run(EMPTY_DB, front), Run(EMPTY_DB, log);
      assert log == front + [op];
      TablesAreTheirHistory(front);
      hide PodFrom, PVFrom, ClaimFrom, Apply;
      forall u ensures Lookup(db'.pod, u) == PodFrom(log, u) {
        PodHistoryStep(front, db, op, u);
      }
      forall u ensures Lookup(db'.pv, u) == PVFrom(log, u) {
        PVHistoryStep(front, db, op, u);
      }
      forall u ensures Lookup(db'.pvc, u) == ClaimFrom(log, u) {
        ClaimHistoryStep(front, db, op, u);
      }
      RefusedIff(front, db, op);
      forall key ensures Lookup(db'.rv, key) == VersionFrom(log, key) {
        VersionAfter(db, op, key);
      }
    }
  }
}
