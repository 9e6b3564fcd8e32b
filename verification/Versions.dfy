/** The version table: every rendered configuration, in the order of its row id. */
module Versions {
  import opened Wrappers

  datatype Status = Applied | Failed | RolledBack

  datatype Version = Version(
    id: nat, content: string, status: Status, comment: string, author: string, error: string)

  // Error texts are cut to this many bytes.
  const ERROR_LIMIT := 4000
  // TrimVersions never keeps fewer rows than this.
  const MIN_KEEP := 5

  function Truncate(s: string): string {
    if |s| <= ERROR_LIMIT then s else s[..ERROR_LIMIT]
  }

  /** The rows in id order, and the id the next row gets; ids are never reused. */
  datatype Rows = Rows(rows: seq<Version>, nextId: nat) {

    predicate Valid() {
      && (forall i, j :: 0 <= i < j < |rows| ==> rows[i].id < rows[j].id)
      && forall i :: 0 <= i < |rows| ==> rows[i].id < nextId
    }

    function Added(content: string, status: Status, comment: string, author: string, error: string): Rows {
      Rows(rows + [Version(nextId, content, status, comment, author, Truncate(error))], nextId + 1)
    }

    function Marked(id: nat, status: Status, error: string): (r: Rows)
      ensures |r.rows| == |rows| && r.nextId == nextId
    {
      Rows(seq(|rows|, i requires 0 <= i < |rows| =>
             if rows[i].id == id then rows[i].(status := status, error := Truncate(error)) else rows[i]),
           nextId)
    }

    /** The newest rows, at least MIN_KEEP of them. */
    function Trimmed(keep: int): Rows {
      var n := if keep < MIN_KEEP then MIN_KEEP else keep;
      if |rows| <= n then this else this.(rows := rows[|rows| - n..])
    }

    function Get(id: nat): Option<Version> {
      Find(rows, id)
    }

    function LatestApplied(): Option<Version> {
      LastApplied(rows)
    }
  }

  function Find(rows: seq<Version>, id: nat): (r: Option<Version>)
    ensures r.Some? ==> r.value in rows && r.value.id == id
    ensures r == None ==> forall v :: v in rows ==> v.id != id
  {
    if rows == [] then None else if rows[0].id == id then Some(rows[0]) else Find(rows[1..], id)
  }

  /** The applied row with the largest id. */
  function LastApplied(rows: seq<Version>): Option<Version> {
    if rows == [] then None
    else if rows[|rows| - 1].status == Applied then Some(rows[|rows| - 1])
    else LastApplied(rows[..|rows| - 1])
  }

  class VersionTable {
    var state: Rows

    constructor ()
      ensures state == Rows([], 1)
    {
      state := Rows([], 1);
    }

    /** INSERT: the row gets an id no row has or had; no other row is touched. */
    method AddVersion(content: string, status: Status, comment: string, author: string, error: string, fault: bool)
      returns (id: Option<nat>)
      requires state.Valid()
      modifies this
      ensures state.Valid() && (fault <==> id == None)
      ensures fault ==> state == old(state)
      ensures !fault ==> id == Some(old(state).nextId)
      ensures !fault ==> state == old(state).Added(content, status, comment, author, error)
      ensures !fault ==> (forall v :: v in old(state).rows ==> v.id < id.value) && old(state).Get(id.value) == None
      ensures !fault ==>
        state.Get(id.value) == Some(Version(id.value, content, status, comment, author, Truncate(error)))
      ensures forall k: nat :: id != Some(k) ==> state.Get(k) == old(state).Get(k)
      ensures state.LatestApplied() ==
        if !fault && status == Applied then state.Get(id.value) else old(state).LatestApplied()
    {
      hide *;
      if fault {
        return None;
      }
      AddedFacts(state, content, status, comment, author, error);
      id := Some(state.nextId);
      var row := Version(state.nextId, content, status, comment, author, Truncate(error));
      state := Rows(state.rows + [row], state.nextId + 1);
    }

    /** UPDATE of the row with this id: every other row stays, and the newest applied
        row among the others counts. */
    method MarkVersion(id: nat, status: Status, error: string, fault: bool)
      requires state.Valid()
      modifies this
      ensures state.Valid()
      ensures state == if fault then old(state) else old(state).Marked(id, status, error)
      ensures forall k :: k != id ==> state.Get(k) == old(state).Get(k)
      ensures !fault && status != Applied ==> state.LatestApplied() == LastApplied(Without(old(state).rows, id))
    {
      if fault {
        return;
      }
      var rows := state.rows;
      for i := 0 to |rows|
        invariant |rows| == |state.rows|
        invariant forall k :: 0 <= k < i ==> rows[k] == state.Marked(id, status, error).rows[k]
        invariant forall k :: i <= k < |rows| ==> rows[k] == state.rows[k]
      {
        if rows[i].id == id {
          rows := rows[i := rows[i].(status := status, error := Truncate(error))];
        }
      }
      assert rows == state.Marked(id, status, error).rows;
      MarkedValid(state, id, status, error);
      MarkedGet(state, id, status, error);
      if status != Applied {
        MarkedLatest(state, id, status, error);
      }
      hide Find, LastApplied, Without;
      state := state.(rows := rows);
    }

    /** DELETE of the rows whose id is not among the newest: the others keep their
        order, and the latest applied row still counts unless it is too old. */
    method TrimVersions(keep: int, fault: bool)
      requires state.Valid()
      modifies this
      ensures state.Valid()
      ensures state == if fault then old(state) else old(state).Trimmed(keep)
      ensures !fault ==> |state.rows| <= if keep < MIN_KEEP then MIN_KEEP else keep
      ensures var latest := old(state).LatestApplied();
              state.LatestApplied() == if latest.Some? && latest.value in state.rows then latest else None
    {
      hide *;
      UntrimmedFacts(state);
      if fault {
        return;
      }
      TrimmedFacts(state, keep);
      var kept := KeepNewest(if keep < MIN_KEEP then MIN_KEEP else keep);
      state := state.(rows := kept);
    }

    method NewestIds(n: nat) returns (ids: set<nat>)
      requires state.Valid()
      ensures forall k :: 0 <= k < |state.rows| ==> (state.rows[k].id in ids <==> |state.rows| - n <= k)
    {
      ids := {};
      var i := |state.rows|;
      while i > 0 && |state.rows| - i < n
        invariant 0 <= i <= |state.rows| && |state.rows| - i <= n
        invariant forall k :: 0 <= k < |state.rows| ==> (state.rows[k].id in ids <==> i <= k)
      {
        i := i - 1;
        ids := ids + {state.rows[i].id};
      }
    }

    method KeepNewest(n: nat) returns (kept: seq<Version>)
      requires state.Valid()
      ensures kept == if |state.rows| <= n then state.rows else state.rows[|state.rows| - n..]
    {
      var ids := NewestIds(n);
      var cut := if |state.rows| <= n then 0 else |state.rows| - n;
      kept := [];
      for k := 0 to |state.rows|
        invariant kept == if k < cut then [] else state.rows[cut..k]
      {
        if state.rows[k].id in ids {
          kept := kept + [state.rows[k]];
        }
      }
    }
  }

  lemma UntrimmedFacts(t: Rows)
    ensures var latest := t.LatestApplied();
            latest == if latest.Some? && latest.value in t.rows then latest else None
  {
    LatestIsRow(t.rows);
  }

  lemma TrimmedFacts(t: Rows, keep: int)
    requires t.Valid()
    ensures var n, trimmed, latest := if keep < MIN_KEEP then MIN_KEEP else keep, t.Trimmed(keep), t.LatestApplied();
            && trimmed == t.(rows := if |t.rows| <= n then t.rows else t.rows[|t.rows| - n..])
            && |trimmed.rows| <= n && trimmed.Valid()
            && trimmed.LatestApplied() == if latest.Some? && latest.value in trimmed.rows then latest else None
  {
    hide LastApplied;
    TrimmedLatest(t, keep);
    TrimmedValid(t, keep);
  }

  lemma AddedFacts(t: Rows, content: string, status: Status, comment: string, author: string, error: string)
    requires t.Valid()
    ensures var row, t' := Version(t.nextId, content, status, comment, author, Truncate(error)),
                           t.Added(content, status, comment, author, error);
            && t' == Rows(t.rows + [row], t.nextId + 1) && t'.Valid()
            && (forall v :: v in t.rows ==> v.id < t.nextId)
            && t.Get(t.nextId) == None && t'.Get(t.nextId) == Some(row)
            && (forall k: nat :: k != t.nextId ==> t'.Get(k) == t.Get(k))
            && t'.LatestApplied() == if status == Applied then Some(row) else t.LatestApplied()
  {
    hide LastApplied, Find;
    AddedLatest(t, content, status, comment, author, error);
    AddedGet(t, content, status, comment, author, error);
    AddedValid(t, content, status, comment, author, error);
  }

  lemma AddedGet(t: Rows, content: string, status: Status, comment: string, author: string, error: string)
    requires t.Valid()
    ensures var t' := t.Added(content, status, comment, author, error);
            && t.Get(t.nextId) == None
            && t'.Get(t.nextId) == Some(t'.rows[|t.rows|])
            && forall k :: k != t.nextId ==> t'.Get(k) == t.Get(k)
  {
    var row := Version(t.nextId, content, status, comment, author, Truncate(error));
    forall k ensures Find(t.rows + [row], k) == if Find(t.rows, k).Some? then Find(t.rows, k) else Find([row], k) {
      FindConcat(t.rows, [row], k);
    }
    assert [row][1..] == [];
  }

  lemma {:induction false} FindConcat(a: seq<Version>, b: seq<Version>, id: nat)
    ensures Find(a + b, id) == if Find(a, id).Some? then Find(a, id) else Find(b, id)
  {
    if a == [] {
      assert a + b == b;
    } else {
      assert (a + b)[1..] == a[1..] + b;
      FindConcat(a[1..], b, id);
    }
  }

  lemma {:induction false} SameFind(a: seq<Version>, b: seq<Version>, id: nat)
    requires |a| == |b| && forall i :: 0 <= i < |a| ==> a[i].id == b[i].id && (a[i].id == id ==> a[i] == b[i])
    ensures Find(a, id) == Find(b, id)
  {
    if a != [] && a[0].id != id {
      SameFind(a[1..], b[1..], id);
    }
  }

  lemma MarkedGet(t: Rows, id: nat, status: Status, error: string)
    ensures forall k :: k != id ==> t.Marked(id, status, error).Get(k) == t.Get(k)
  {
    forall k | k != id ensures Find(t.Marked(id, status, error).rows, k) == Find(t.rows, k) {
      SameFind(t.Marked(id, status, error).rows, t.rows, k);
    }
  }

  // ---- the table keeps its order

  lemma AddedValid(t: Rows, content: string, status: Status, comment: string, author: string, error: string)
    requires t.Valid()
    ensures t.Added(content, status, comment, author, error).Valid()
  {
  }

  lemma MarkedValid(t: Rows, id: nat, status: Status, error: string)
    requires t.Valid()
    ensures t.Marked(id, status, error).Valid()
  {
  }

  lemma TrimmedValid(t: Rows, keep: int)
    requires t.Valid()
    ensures t.Trimmed(keep).Valid()
  {
    var n := if keep < MIN_KEEP then MIN_KEEP else keep;
    if |t.rows| > n {
      var cut := |t.rows| - n;
      assert forall i :: 0 <= i < n ==> t.rows[cut..][i] == t.rows[cut + i];
    }
  }

  // ---- what the operations do to the latest applied row

  lemma AddedLatest(t: Rows, content: string, status: Status, comment: string, author: string, error: string)
    ensures var t' := t.Added(content, status, comment, author, error);
            t'.LatestApplied() == if status == Applied then Some(t'.rows[|t.rows|]) else t.LatestApplied()
  {
    var t' := t.Added(content, status, comment, author, error);
    assert t'.rows[..|t.rows|] == t.rows;
  }

  /** The rows but one. */
  function Without(rows: seq<Version>, id: nat): seq<Version> {
    if rows == [] then []
    else
      var last := rows[|rows| - 1];
      Without(rows[..|rows| - 1], id) + (if last.id == id then [] else [last])
  }

  lemma LastAppliedSnoc(rows: seq<Version>, v: Version)
    ensures LastApplied(rows + [v]) == if v.status == Applied then Some(v) else LastApplied(rows)
  {
    assert (rows + [v])[..|rows|] == rows;
  }

  lemma WithoutSnoc(rows: seq<Version>, id: nat)
    requires rows != []
    ensures var front, last := rows[..|rows| - 1], rows[|rows| - 1];
            LastApplied(Without(rows, id)) ==
              if last.id != id && last.status == Applied then Some(last) else LastApplied(Without(front, id))
  {
    hide LastApplied;
    var front, last := rows[..|rows| - 1], rows[|rows| - 1];
    LastAppliedSnoc(Without(front, id), last);
    assert last.id == id ==> Without(rows, id) == Without(front, id);
  }

  /** A row that does not count as applied might as well not be there. */
  lemma {:induction false} HiddenRow(rows: seq<Version>, marked: seq<Version>, id: nat)
    requires |marked| == |rows|
    requires forall i :: 0 <= i < |rows| ==>
      if rows[i].id == id then marked[i].status != Applied else marked[i] == rows[i]
    ensures LastApplied(marked) == LastApplied(Without(rows, id))
  {
    if rows != [] {
      var n := |rows| - 1;
      HiddenRow(rows[..n], marked[..n], id);
      WithoutSnoc(rows, id);
      hide Without;
    }
  }

  lemma {:induction false} OtherRow(rows: seq<Version>, id: nat)
    requires LastApplied(rows) == None || LastApplied(rows).value.id != id
    ensures LastApplied(Without(rows, id)) == LastApplied(rows)
  {
    if rows != [] {
      WithoutSnoc(rows, id);
      if rows[|rows| - 1].status != Applied {
        OtherRow(rows[..|rows| - 1], id);
      }
    }
  }

  /** To the log, marking a row as not applied is removing it: the newest applied row
      among the others counts. */
  lemma MarkedLatest(t: Rows, id: nat, status: Status, error: string)
    requires status != Applied
    ensures t.Marked(id, status, error).LatestApplied() == LastApplied(Without(t.rows, id))
    ensures var before := t.LatestApplied();
            before == None || before.value.id != id ==> t.Marked(id, status, error).LatestApplied() == before
  {
    hide LastApplied, Without, Truncate;
    HiddenRow(t.rows, t.Marked(id, status, error).rows, id);
    if t.LatestApplied() == None || t.LatestApplied().value.id != id {
      OtherRow(t.rows, id);
    }
  }

  /** Trimming keeps the latest applied row if that row is itself kept; otherwise no
      applied row is left. */
  lemma {:induction false} TrimmedLatest(t: Rows, keep: int)
    ensures var before, kept := t.LatestApplied(), t.Trimmed(keep);
            kept.LatestApplied() == if before.Some? && before.value in kept.rows then before else None
  {
    hide LastApplied;
    var n := if keep < MIN_KEEP then MIN_KEEP else keep;
    if |t.rows| > n {
      SuffixLatest(t.rows, |t.rows| - n);
    }
    LatestIsRow(t.rows);
    LatestIsRow(t.Trimmed(keep).rows);
  }

  lemma {:induction false} LatestIsRow(rows: seq<Version>)
    ensures LastApplied(rows).Some? ==> LastApplied(rows).value in rows && LastApplied(rows).value.status == Applied
    ensures LastApplied(rows) == None <==> forall v :: v in rows ==> v.status != Applied
  {
    if rows != [] {
      var front := rows[..|rows| - 1];
      assert rows == front + [rows[|rows| - 1]];
      LatestIsRow(front);
    }
  }

  lemma {:induction false} SuffixLatest(rows: seq<Version>, cut: nat)
    requires cut <= |rows|
    ensures LastApplied(rows[cut..]) == None || LastApplied(rows[cut..]) == LastApplied(rows)
  {
    if cut < |rows| {
      var shorter := rows[..|rows| - 1];
      SuffixLatest(shorter, cut);
      assert rows[cut..][..|rows| - cut - 1] == shorter[cut..];
      assert rows[cut..][|rows| - cut - 1] == rows[|rows| - 1];
    }
  }

  /** A row that was just added and is at once marked failed might as well have been
      added as failed. */
  lemma AddedThenMarked(t: Rows, content: string, comment: string, author: string, error: string)
    requires t.Valid()
    ensures t.Added(content, Applied, comment, author, "").Marked(t.nextId, Failed, error)
         == t.Added(content, Failed, comment, author, error)
  {
    var a := t.Added(content, Applied, comment, author, "").Marked(t.nextId, Failed, error);
    var b := t.Added(content, Failed, comment, author, error);
    forall i | 0 <= i < |t.rows| + 1 ensures a.rows[i] == b.rows[i] {
      assert i < |t.rows| ==> t.rows[i].id < t.nextId;
    }
    assert a.rows == b.rows;
  }

  /** Trimming never removes the newest row. */
  lemma TrimmedKeepsNewest(t: Rows, keep: int)
    requires t.rows != [] && t.rows[|t.rows| - 1].status == Applied
    ensures t.Trimmed(keep).LatestApplied() == Some(t.rows[|t.rows| - 1])
  {
    var n := if keep < MIN_KEEP then MIN_KEEP else keep;
    if |t.rows| > n {
      assert t.rows[|t.rows| - n..][n - 1] == t.rows[|t.rows| - 1];
    }
  }
}
