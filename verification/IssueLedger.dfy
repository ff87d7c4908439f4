/**
  The SQLite table `issue_submission_ledger` and its four statements.

  Rows live under the declared primary key, in which an absent parent issue, parent 0 and a parent
  above i64::MAX all share the column value 0.  Every SELECT and UPDATE also compares the text column
  `parent_issue_key`, which keeps those cases apart, so a statement can miss a row that an INSERT would
  still collide with.
*/
module IssueLedger {
  import opened Wrappers

  const I64_MAX: nat := 0x7FFF_FFFF_FFFF_FFFF

  datatype LedgerState =
    | Pending
    | Submitted
    | Created
    | Linked
    | CreatedUnlinked
    | CreatedMetadataMismatch
    | Failed

  /** The SDK key; `parent` stands for the text column `parent_issue_key`. */
  datatype Key = Key(issueSet: string, proposal: string, repo: string, parent: Option<nat>, digest: string)

  datatype PrimaryKey = PrimaryKey(runId: string, proposal: string, repo: string, parentIssue: nat, digest: string)

  datatype Row = Row(parentKey: Option<nat>, state: LedgerState, number: Option<nat>, id: Option<nat>)

  type Table = map<PrimaryKey, Row>

  datatype BeginDecision = InsertSubmitted | TransitionPendingToSubmitted | Blocked

  /** `i64::try_from(..).ok()` on an optional u64. */
  function ToI64(value: Option<nat>): Option<nat> {
    if value.Some? && value.value <= I64_MAX then value else None
  }

  function ParentIssueValue(parent: Option<nat>): nat {
    match ToI64(parent)
    case Some(issue) => issue
    case None => 0
  }

  function PrimaryKeyOf(k: Key): PrimaryKey {
    PrimaryKey(k.issueSet, k.proposal, k.repo, ParentIssueValue(k.parent), k.digest)
  }

  /** The row that `WHERE issue_set_id, proposal_id, repo, parent_issue_key, proposal_digest` selects. */
  function Select(t: Table, k: Key): Option<Row> {
    var pk := PrimaryKeyOf(k);
    if pk in t && t[pk].parentKey == k.parent then Some(t[pk]) else None
  }

  function Coalesce<T>(incoming: Option<T>, stored: Option<T>): Option<T> {
    if incoming.Some? then incoming else stored
  }

  /** The begin transaction's write; None means an error and a rolled-back transaction. */
  function BeginWrite(t: Table, k: Key, decision: BeginDecision): Option<Table> {
    var pk := PrimaryKeyOf(k);
    match decision
    case InsertSubmitted =>
      if pk in t then None else Some(t[pk := Row(k.parent, Submitted, None, None)])
    case TransitionPendingToSubmitted =>
      if Select(t, k).Some? && t[pk].state == Pending then Some(t[pk := t[pk].(state := Submitted)]) else None
    case Blocked => None
  }

  /** `plan_issue_submission_begin`. */
  function PlanBegin(existing: Option<Row>): BeginDecision {
    match existing
    case None => InsertSubmitted
    case Some(row) => if row.state == Pending then TransitionPendingToSubmitted else Blocked
  }

  function InsertOrIgnore(t: Table, k: Key): Table {
    var pk := PrimaryKeyOf(k);
    if pk in t then t else t[pk := Row(k.parent, Pending, None, None)]
  }

  function MaterializeAll(t: Table, keys: seq<Key>): Table {
    if keys == [] then t
    else InsertOrIgnore(MaterializeAll(t, keys[..|keys| - 1]), keys[|keys| - 1])
  }

  /** The UPDATE of `record_issue_submission_state`; it touches nothing when no row matches. */
  function RecordState(t: Table, k: Key, state: LedgerState, number: Option<nat>, id: Option<nat>): Table {
    var pk := PrimaryKeyOf(k);
    match Select(t, k)
    case None => t
    case Some(row) =>
      t[pk := row.(state := state, number := Coalesce(ToI64(number), row.number), id := Coalesce(ToI64(id), row.id))]
  }

  /** The open ledger database.  Each method is one committed transaction. */
  class LedgerDatabase {
    var rows: Table

    constructor ()
      ensures rows == map[]
    {
      rows := map[];
    }

    method Load(k: Key) returns (row: Option<Row>)
      ensures row == Select(rows, k)
    {
      row := None;
      var pk := PrimaryKeyOf(k);
      if pk in rows {
        var stored := rows[pk];
        if stored.parentKey == k.parent {
          row := Some(stored);
        }
      }
    }

    /** `plan` is any planner: the guards in the two statements do not rely on its answer. */
    method Begin(k: Key, plan: Option<Row> -> BeginDecision) returns (ok: bool)
      modifies this
      ensures var write := BeginWrite(old(rows), k, plan(Select(old(rows), k)));
              ok == write.Some? && rows == if ok then write.value else old(rows)
    {
      var existing := Load(k);
      var pk := PrimaryKeyOf(k);
      match plan(existing)
      case InsertSubmitted =>
        if pk in rows {
          return false;
        }
        rows := rows[pk := Row(k.parent, Submitted, None, None)];
        ok := true;
      case TransitionPendingToSubmitted =>
        var affected := 0;
        if pk in rows && rows[pk].parentKey == k.parent && rows[pk].state == Pending {
          rows := rows[pk := rows[pk].(state := Submitted)];
          affected := 1;
        }
        ok := affected == 1;
      case Blocked =>
        ok := false;
    }

    method Materialize(keys: seq<Key>)
      modifies this
      ensures rows == MaterializeAll(old(rows), keys)
    {
      assert keys[..|keys|] == keys;
      for i := 0 to |keys|
        invariant rows == MaterializeAll(old(rows), keys[..i])
      {
        assert keys[..i + 1][..i] == keys[..i];
        var pk := PrimaryKeyOf(keys[i]);
        if pk !in rows {
          rows := rows[pk := Row(keys[i].parent, Pending, None, None)];
        }
      }
    }

    method Record(k: Key, state: LedgerState, number: Option<nat>, id: Option<nat>)
      modifies this
      ensures rows == RecordState(old(rows), k, state, number, id)
    {
      var row := Load(k);
      if row.Some? {
        var stored := row.value;
        rows := rows[PrimaryKeyOf(k) := Row(stored.parentKey, state,
                     Coalesce(ToI64(number), stored.number), Coalesce(ToI64(id), stored.id))];
      }
    }
  }

  /** What any two versions of the table have in common when only these statements ran in between. */
  ghost predicate Advances(before: Table, after: Table) {
    forall pk :: pk in before ==>
      pk in after && after[pk].parentKey == before[pk].parentKey &&
      (after[pk].state == Pending ==> before[pk].state == Pending)
  }

  /**
    Whatever the planner says, begin succeeds only over a free primary key or a pending row, and then
    exactly that row becomes `submitted`.
  */
  lemma BeginIsGuarded(t: Table, k: Key, decision: BeginDecision)
    requires BeginWrite(t, k, decision).Some?
    ensures PrimaryKeyOf(k) !in t || (Select(t, k).Some? && Select(t, k).value.state == Pending)
    ensures var after := BeginWrite(t, k, decision).value;
            && Advances(t, after)
            && after.Keys == t.Keys + {PrimaryKeyOf(k)}
            && Select(after, k).Some? && Select(after, k).value.state == Submitted
            && Select(after, k).value.number == (if PrimaryKeyOf(k) in t then t[PrimaryKeyOf(k)].number else None)
            && Select(after, k).value.id == (if PrimaryKeyOf(k) in t then t[PrimaryKeyOf(k)].id else None)
            && (forall other :: other in t && other != PrimaryKeyOf(k) ==> after[other] == t[other])
  {
  }

  /** Two keys share a row exactly when they differ at most in parents that are absent, 0 or beyond the column's range. */
  lemma PrimaryKeysEqualIff(k: Key, l: Key)
    ensures PrimaryKeyOf(k) == PrimaryKeyOf(l) <==>
              && k.issueSet == l.issueSet && k.proposal == l.proposal && k.repo == l.repo && k.digest == l.digest
              && (k.parent == l.parent
                  || ((k.parent == None || k.parent == Some(0) || k.parent.value > 0x7FFF_FFFF_FFFF_FFFF)
                      && (l.parent == None || l.parent == Some(0) || l.parent.value > 0x7FFF_FFFF_FFFF_FFFF)))
  {
  }

  /**
    Recording reaches the row of exactly this key, or none: its state is replaced, its number and id only by values
    that fit the column, and every other row stays as it was.
  */
  lemma RecordedRowIs(t: Table, k: Key, state: LedgerState, number: Option<nat>, id: Option<nat>)
    ensures var pk, after := PrimaryKeyOf(k), RecordState(t, k, state, number, id);
            && after.Keys == t.Keys
            && (forall other :: other in t && other != pk ==> after[other] == t[other])
            && (pk in t && t[pk].parentKey != k.parent ==> after[pk] == t[pk])
            && (pk in t && t[pk].parentKey == k.parent ==>
                  && after[pk].parentKey == k.parent && after[pk].state == state
                  && after[pk].number == (if number.Some? && number.value <= 0x7FFF_FFFF_FFFF_FFFF then number else t[pk].number)
                  && after[pk].id == (if id.Some? && id.value <= 0x7FFF_FFFF_FFFF_FFFF then id else t[pk].id))
  {
  }

  /** With the SDK's planner begin succeeds exactly when the row is pending or its primary key is free. */
  lemma PlannedBeginSucceedsIff(t: Table, k: Key)
    ensures BeginWrite(t, k, PlanBegin(Select(t, k))).Some?
       <==> (PrimaryKeyOf(k) !in t || (Select(t, k).Some? && Select(t, k).value.state == Pending))
  {
  }

  /**
    `after` has the rows of `t` unchanged and, for every other primary key of `keys`, a pending row that names no
    issue and has the parent key of one of `keys`.
  */
  ghost predicate OnlyAddsPending(t: Table, after: Table, keys: seq<Key>) {
    && (forall k :: k in keys ==> PrimaryKeyOf(k) in after)
    && (forall pk :: pk in t ==> pk in after && after[pk] == t[pk])
    && forall pk :: pk in after && pk !in t ==>
         exists k :: k in keys && pk == PrimaryKeyOf(k) && after[pk] == Row(k.parent, Pending, None, None)
  }

  lemma InsertOnlyAdds(t: Table, middle: Table, keys: seq<Key>, last: Key)
    requires OnlyAddsPending(t, middle, keys)
    ensures OnlyAddsPending(t, InsertOrIgnore(middle, last), keys + [last])
  {
    var more, after := keys + [last], InsertOrIgnore(middle, last);
    forall pk | pk in after && pk !in t
      ensures exists k :: k in more && pk == PrimaryKeyOf(k) && after[pk] == Row(k.parent, Pending, None, None)
    {
      if pk in middle {
        var k :| k in keys && pk == PrimaryKeyOf(k) && middle[pk] == Row(k.parent, Pending, None, None);
        assert k in more;
      } else {
        assert last in more;
      }
    }
  }

  /** Materialisation adds pending rows for the new primary keys and leaves every stored row alone. */
  lemma {:induction false} MaterializeOnlyAddsPending(t: Table, keys: seq<Key>)
    ensures OnlyAddsPending(t, MaterializeAll(t, keys), keys)
  {
    if keys != [] {
      var init := keys[..|keys| - 1];
      MaterializeOnlyAddsPending(t, init);
      InsertOnlyAdds(t, MaterializeAll(t, init), init, keys[|keys| - 1]);
      assert keys == init + [keys[|keys| - 1]];
    }
  }
}
