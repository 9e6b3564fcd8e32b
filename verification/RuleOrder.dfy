/** The order of an owner's rules: how rules are listed, and how one is moved. */
module RuleOrder {
  import opened Wrappers

  datatype Rule = Rule(id: int, scope: string, owner: int, order: int, text: string)

  /** ORDER BY order_index, id. */
  predicate Before(a: Rule, b: Rule) {
    a.order < b.order || (a.order == b.order && a.id < b.id)
  }

  predicate Sorted(s: seq<Rule>) {
    forall i, j :: 0 <= i < j < |s| ==> Before(s[i], s[j])
  }

  /** Ids are primary keys. */
  predicate Keyed(rows: seq<Rule>) {
    forall i, j :: 0 <= i < j < |rows| ==> rows[i].id != rows[j].id
  }

  ghost predicate SameRules(a: seq<Rule>, b: seq<Rule>) {
    forall r :: r in a <==> r in b
  }

  function Owned(rows: seq<Rule>, scope: string, owner: int): seq<Rule> {
    if rows == [] then []
    else (if rows[0].scope == scope && rows[0].owner == owner then [rows[0]] else []) + Owned(rows[1..], scope, owner)
  }

  function Insert(r: Rule, s: seq<Rule>): seq<Rule> {
    if s == [] || Before(r, s[0]) then [r] + s else [s[0]] + Insert(r, s[1..])
  }

  function Sort(s: seq<Rule>): seq<Rule> {
    if s == [] then [] else Insert(s[0], Sort(s[1..]))
  }

  /** ListRules: the rows of one owner in order. */
  function Listed(rows: seq<Rule>, scope: string, owner: int): seq<Rule> {
    Sort(Owned(rows, scope, owner))
  }

  // ---- the listing is the sorted enumeration of the owner's rows

  lemma {:induction false} OwnedExactly(rows: seq<Rule>, scope: string, owner: int, r: Rule)
    ensures r in Owned(rows, scope, owner) <==> r in rows && r.scope == scope && r.owner == owner
  {
    if rows != [] {
      OwnedExactly(rows[1..], scope, owner, r);
      assert r in rows <==> r == rows[0] || r in rows[1..];
    }
  }

  lemma {:induction false} OwnedKeyed(rows: seq<Rule>, scope: string, owner: int)
    requires Keyed(rows)
    ensures Keyed(Owned(rows, scope, owner))
  {
    if rows != [] {
      OwnedKeyed(rows[1..], scope, owner);
      var rest := Owned(rows[1..], scope, owner);
      forall k | 0 <= k < |rest| ensures rest[k].id != rows[0].id {
        OwnedExactly(rows[1..], scope, owner, rest[k]);
        var j :| 0 <= j < |rows[1..]| && rows[1..][j] == rest[k];
        assert rows[j + 1] == rest[k];
      }
    }
  }

  lemma {:induction false} InsertSorts(r: Rule, s: seq<Rule>)
    requires Sorted(s) && forall k :: 0 <= k < |s| ==> s[k].id != r.id
    ensures Sorted(Insert(r, s))
    ensures forall x :: x in Insert(r, s) <==> x == r || x in s
    decreases |s|
  {
    if s == [] || Before(r, s[0]) {
    } else {
      InsertSorts(r, s[1..]);
      assert s == [s[0]] + s[1..];
      var t := Insert(r, s[1..]);
      forall k | 0 <= k < |t| ensures Before(s[0], t[k]) {
        assert t[k] in t;
        if t[k] != r {
          var j :| 0 <= j < |s[1..]| && s[1..][j] == t[k];
          assert s[j + 1] == t[k];
        }
      }
    }
  }

  lemma {:induction false} SortSorts(s: seq<Rule>)
    requires Keyed(s)
    ensures Sorted(Sort(s)) && SameRules(Sort(s), s)
  {
    if s != [] {
      SortSorts(s[1..]);
      var t := Sort(s[1..]);
      forall k | 0 <= k < |t| ensures t[k].id != s[0].id {
        assert t[k] in t;
        var j :| 0 <= j < |s[1..]| && s[1..][j] == t[k];
        assert s[j + 1] == t[k];
      }
      InsertSorts(s[0], t);
      assert s == [s[0]] + s[1..];
    }
  }

  /** Only one sorted sequence enumerates a set of rules. */
  lemma {:induction false} SortedIsUnique(a: seq<Rule>, b: seq<Rule>)
    requires Sorted(a) && Sorted(b) && SameRules(a, b)
    ensures a == b
    decreases |a|
  {
    if a == [] || b == [] {
      EmptySame(a, b);
    } else {
      HeadIn(a);
      HeadIn(b);
      FirstOfAll(b, a[0]);
      FirstOfAll(a, b[0]);
      TailsSame(a, b);
      SortedIsUnique(a[1..], b[1..]);
      assert a == [a[0]] + a[1..] && b == [b[0]] + b[1..];
    }
  }

  lemma HeadIn(s: seq<Rule>)
    requires s != []
    ensures s[0] in s
  {
  }

  lemma EmptySame(a: seq<Rule>, b: seq<Rule>)
    requires SameRules(a, b) && (a == [] || b == [])
    ensures a == [] && b == []
  {
    if a != [] {
      HeadIn(a);
    }
    if b != [] {
      HeadIn(b);
    }
  }

  lemma FirstOfAll(s: seq<Rule>, r: Rule)
    requires Sorted(s) && r in s
    ensures r == s[0] || Before(s[0], r)
  {
    var i :| 0 <= i < |s| && s[i] == r;
  }

  lemma TailsSame(a: seq<Rule>, b: seq<Rule>)
    requires Sorted(a) && Sorted(b) && SameRules(a, b) && a != [] && b != [] && a[0] == b[0]
    ensures SameRules(a[1..], b[1..]) && Sorted(a[1..]) && Sorted(b[1..])
  {
    forall r ensures r in a[1..] <==> r in b[1..] {
      InTail(a, r);
      InTail(b, r);
    }
  }

  lemma InTail(a: seq<Rule>, r: Rule)
    requires Sorted(a) && a != []
    ensures r in a[1..] <==> r in a && r != a[0]
  {
    if r in a[1..] {
      var k :| 0 <= k < |a[1..]| && a[1..][k] == r;
      assert Before(a[0], a[k + 1]);
    }
    if r in a && r != a[0] {
      var k :| 0 <= k < |a| && a[k] == r;
      assert a[1..][k - 1] == r;
    }
  }

  lemma ListedIs(rows: seq<Rule>, scope: string, owner: int, list: seq<Rule>)
    requires Keyed(rows) && Sorted(list)
    requires forall r :: r in list <==> r in rows && r.scope == scope && r.owner == owner
    ensures Listed(rows, scope, owner) == list
  {
    OwnedKeyed(rows, scope, owner);
    SortSorts(Owned(rows, scope, owner));
    forall r ensures r in Listed(rows, scope, owner) <==> r in list {
      OwnedExactly(rows, scope, owner, r);
    }
    SortedIsUnique(Listed(rows, scope, owner), list);
  }

  lemma ListedExactly(rows: seq<Rule>, scope: string, owner: int)
    requires Keyed(rows)
    ensures Sorted(Listed(rows, scope, owner)) && Keyed(Listed(rows, scope, owner))
    ensures forall r :: r in Listed(rows, scope, owner) <==> r in rows && r.scope == scope && r.owner == owner
  {
    OwnedKeyed(rows, scope, owner);
    SortSorts(Owned(rows, scope, owner));
    var list := Listed(rows, scope, owner);
    forall r ensures r in list <==> r in rows && r.scope == scope && r.owner == owner {
      OwnedExactly(rows, scope, owner, r);
    }
    forall i, j | 0 <= i < j < |list| ensures list[i].id != list[j].id {
      assert list[i] in rows && list[j] in rows && Before(list[i], list[j]);
    }
  }

  /** A rule is listed ahead of another exactly when its order is less, or its id where
      the orders are equal. */
  lemma ListedInOrder(rows: seq<Rule>, scope: string, owner: int, i: nat, j: nat)
    requires Keyed(rows) && i < |Listed(rows, scope, owner)| && j < |Listed(rows, scope, owner)|
    ensures var (a, b) := (Listed(rows, scope, owner)[i], Listed(rows, scope, owner)[j]);
            i < j <==> a.order < b.order || (a.order == b.order && a.id < b.id)
  {
    ListedExactly(rows, scope, owner);
    hide Listed;
    var list := Listed(rows, scope, owner);
    assert i < j ==> Before(list[i], list[j]);
    assert j < i ==> Before(list[j], list[i]);
  }

  // ---- renumbering

  /** Where the list has this id, or -1. */
  function Place(list: seq<Rule>, id: int): (k: int)
    ensures -1 <= k < |list|
    ensures k >= 0 ==> list[k].id == id
    ensures k < 0 ==> forall i :: 0 <= i < |list| ==> list[i].id != id
  {
    if list == [] then -1
    else if list[|list| - 1].id == id then |list| - 1
    else Place(list[..|list| - 1], id)
  }

  function WithOrder(list: seq<Rule>, r: Rule): Rule {
    var k := Place(list, r.id);
    if k < 0 then r else r.(order := k)
  }

  /** Every listed rule gets its place as its order; other rows stay. */
  function Renumbered(rows: seq<Rule>, list: seq<Rule>): (r: seq<Rule>)
    ensures |r| == |rows|
    ensures forall i :: 0 <= i < |rows| ==> r[i] == WithOrder(list, rows[i])
  {
    seq(|rows|, i requires 0 <= i < |rows| => WithOrder(list, rows[i]))
  }

  /** The list itself with orders 0, 1, 2, ... */
  function Numbered(list: seq<Rule>): (r: seq<Rule>)
    ensures |r| == |list|
    ensures forall i :: 0 <= i < |list| ==> r[i] == list[i].(order := i)
  {
    seq(|list|, i requires 0 <= i < |list| => list[i].(order := i))
  }

  lemma PlaceIs(list: seq<Rule>, i: nat)
    requires Keyed(list) && i < |list|
    ensures Place(list, list[i].id) == i
  {
  }

  /** Listing after renumbering gives back the list that was written. */
  lemma ListedAfterRenumbering(rows: seq<Rule>, scope: string, owner: int, list: seq<Rule>)
    requires Keyed(rows) && Keyed(list)
    requires forall r :: r in list <==> r in rows && r.scope == scope && r.owner == owner
    ensures Listed(Renumbered(rows, list), scope, owner) == Numbered(list)
  {
    hide Place, Listed, Renumbered, Numbered;
    var after, target := Renumbered(rows, list), Numbered(list);
    forall r ensures r in target <==> r in after && r.scope == scope && r.owner == owner {
      if r in target {
        WrittenIsThere(rows, list, r);
      }
      if r in after && r.scope == scope && r.owner == owner {
        ThereIsWritten(rows, list, scope, owner, r);
      }
    }
    NumberedSorted(list);
    ListedIs(after, scope, owner, target);
  }

  lemma WrittenIsThere(rows: seq<Rule>, list: seq<Rule>, r: Rule)
    requires Keyed(list) && (forall q :: q in list ==> q in rows) && r in Numbered(list)
    ensures r in Renumbered(rows, list)
    ensures exists q :: q in list && r.scope == q.scope && r.owner == q.owner
  {
    hide Place, Numbered, Renumbered;
    var target, after := Numbered(list), Renumbered(rows, list);
    var i :| 0 <= i < |target| && target[i] == r;
    PlaceIs(list, i);
    assert list[i] in list;
    var j :| 0 <= j < |rows| && rows[j] == list[i];
    assert after[j] == r;
  }

  lemma ThereIsWritten(rows: seq<Rule>, list: seq<Rule>, scope: string, owner: int, r: Rule)
    requires Keyed(list) && r in Renumbered(rows, list) && r.scope == scope && r.owner == owner
    requires forall q :: q in rows && q.scope == scope && q.owner == owner ==> q in list
    ensures r in Numbered(list)
  {
    hide Place, Numbered, Renumbered;
    var target, after := Numbered(list), Renumbered(rows, list);
    var j :| 0 <= j < |after| && after[j] == r;
    assert rows[j] in rows;
    assert rows[j] in list;
    var i :| 0 <= i < |list| && list[i] == rows[j];
    PlaceIs(list, i);
    assert target[i] == r;
  }

  lemma NumberedSorted(list: seq<Rule>)
    requires Keyed(list)
    ensures Sorted(Numbered(list)) && Keyed(Numbered(list))
  {
    hide Numbered;
  }

  // ---- moving

  function Swapped(list: seq<Rule>, i: nat, j: nat): (r: seq<Rule>)
    requires i < |list| && j < |list|
    ensures |r| == |list|
  {
    list[i := list[j]][j := list[i]]
  }

  lemma SwappedKeepsRules(list: seq<Rule>, i: nat, j: nat)
    requires Keyed(list) && i < |list| && j < |list|
    ensures Keyed(Swapped(list, i, j)) && SameRules(Swapped(list, i, j), list)
  {
    var s := Swapped(list, i, j);
    forall r ensures r in s <==> r in list {
      if r in list {
        var k :| 0 <= k < |list| && list[k] == r;
        assert s[if k == i then j else if k == j then i else k] == r;
      }
      if r in s {
        var k :| 0 <= k < |s| && s[k] == r;
        assert list[if k == i then j else if k == j then i else k] == r;
      }
    }
  }

  function FindRow(rows: seq<Rule>, id: int): (r: Option<Rule>)
    ensures r.Some? ==> r.value in rows && r.value.id == id
    ensures r == None ==> forall k :: 0 <= k < |rows| ==> rows[k].id != id
  {
    if rows == [] then None else if rows[0].id == id then Some(rows[0]) else FindRow(rows[1..], id)
  }

  /** Where a move by delta takes the rule, when the place exists. */
  predicate InRange(rows: seq<Rule>, id: int, delta: int) {
    var r := FindRow(rows, id);
    r.Some?
    && var list := Listed(rows, r.value.scope, r.value.owner);
       Place(list, id) >= 0 && 0 <= Place(list, id) + delta < |list|
  }

  /** The owner's list after the move. */
  function MovedList(rows: seq<Rule>, id: int, delta: int): seq<Rule>
    requires InRange(rows, id, delta)
  {
    var r := FindRow(rows, id).value;
    var list := Listed(rows, r.scope, r.owner);
    Swapped(list, Place(list, id), Place(list, id) + delta)
  }

  function Moved(rows: seq<Rule>, id: int, delta: int): seq<Rule> {
    if InRange(rows, id, delta) then Renumbered(rows, MovedList(rows, id, delta)) else rows
  }

  datatype MoveResult = Done | NotFound | TxFailed

  lemma MovedIs(rows: seq<Rule>, id: int, delta: int)
    requires FindRow(rows, id).Some?
    ensures var r := FindRow(rows, id).value;
            var list := Listed(rows, r.scope, r.owner);
            var idx := Place(list, id);
            Moved(rows, id, delta) ==
              if idx >= 0 && 0 <= idx + delta < |list| then Renumbered(rows, Swapped(list, idx, idx + delta)) else rows
  {
    hide Listed, Place, FindRow, Renumbered, Swapped;
  }

  lemma SwappedIs(list: seq<Rule>, i: nat, j: nat)
    requires i < |list| && j < |list|
    ensures Swapped(list, i, j) == list[i := list[j]][j := list[i]]
  {
  }

  class RuleTable {
    var rows: seq<Rule>

    constructor (initial: seq<Rule>)
      ensures rows == initial
    {
      rows := initial;
    }

    /** The transaction: one UPDATE per listed rule. fault is the number of updates it
        gets through before it fails, and then it changes nothing. */
    method Renumber(rules: seq<Rule>, fault: Option<nat>) returns (ok: bool)
      requires Keyed(rules)
      modifies this
      ensures ok <==> !(fault.Some? && fault.value < |rules|)
      ensures rows == if ok then Renumbered(old(rows), rules) else old(rows)
    {
      hide WithOrder, SetOrder, Renumbered;
      var before := rows;
      RenumberedByNone(rows);
      assert rules[..0] == [];
      for i := 0 to |rules|
        invariant rows == Renumbered(before, rules[..i])
        invariant fault.Some? ==> i <= fault.value
      {
        if fault == Some(i) {
          rows := before;
          return false;
        }
        NextUpdate(before, rules, i);
        rows := SetOrder(rows, rules[i].id, i);
      }
      assert rules[..|rules|] == rules;
      ok := true;
    }

    method MoveRule(id: int, delta: int, fault: Option<nat>) returns (result: MoveResult)
      requires Keyed(rows)
      modifies this
      ensures result == NotFound <==> FindRow(old(rows), id) == None
      ensures result != Done ==> rows == old(rows)
      ensures result == Done ==> rows == Moved(old(rows), id, delta)
      ensures fault == None ==> result != TxFailed
    {
      hide *;
      var found := FindRow(rows, id);
      if found == None {
        return NotFound;
      }
      var r := found.value;
      var rules := Listed(rows, r.scope, r.owner);
      ListedExactly(rows, r.scope, r.owner);
      var idx := Locate(rules, id);
      var target := idx + delta;
      MovedIs(rows, id, delta);
      if idx < 0 || target < 0 || target >= |rules| {
        return Done;
      }
      SwappedKeepsRules(rules, idx, target);
      SwappedIs(rules, idx, target);
      rules := rules[idx := rules[target]][target := rules[idx]];
      var ok := Renumber(rules, fault);
      result := if ok then Done else TxFailed;
    }
  }

  method Locate(rules: seq<Rule>, id: int) returns (idx: int)
    requires Keyed(rules)
    ensures idx == Place(rules, id)
  {
    hide Place;
    idx := -1;
    for i := 0 to |rules|
      invariant idx == -1 && forall k :: 0 <= k < i ==> rules[k].id != id
    {
      if rules[i].id == id {
        PlaceIs(rules, i);
        return i;
      }
    }
  }

  lemma RenumberedByNone(rows: seq<Rule>)
    ensures Renumbered(rows, []) == rows
  {
  }

  /** UPDATE rules SET order_index = ? WHERE id = ? */
  function SetOrder(rows: seq<Rule>, id: int, order: int): seq<Rule> {
    seq(|rows|, k requires 0 <= k < |rows| => if rows[k].id == id then rows[k].(order := order) else rows[k])
  }

  lemma NextUpdate(rows: seq<Rule>, list: seq<Rule>, i: nat)
    requires Keyed(list) && i < |list|
    ensures SetOrder(Renumbered(rows, list[..i]), list[i].id, i) == Renumbered(rows, list[..i + 1])
  {
    NextPlace(rows, list, i);
    hide WithOrder;
  }

  /** One more UPDATE renumbers one more rule of the list. */
  lemma NextPlace(rows: seq<Rule>, list: seq<Rule>, i: nat)
    requires Keyed(list) && i < |list|
    ensures forall k :: 0 <= k < |rows| ==>
      WithOrder(list[..i + 1], rows[k]) ==
        (if rows[k].id == list[i].id then WithOrder(list[..i], rows[k]).(order := i) else WithOrder(list[..i], rows[k]))
    ensures forall k :: 0 <= k < |rows| ==> WithOrder(list[..i], rows[k]).id == rows[k].id
  {
    assert list[..i + 1][..i] == list[..i];
  }

  lemma OneRowPerId(rows: seq<Rule>, t: Rule, k: nat)
    requires Keyed(rows) && t in rows && k < |rows| && t.id == rows[k].id
    ensures t == rows[k]
  {
    var j :| 0 <= j < |rows| && rows[j] == t;
  }

  /** A move within range swaps exactly two rules of the listing, the given
      distance apart, numbers the owner's rules 0 to n-1 and leaves every other row alone. */
  lemma MoveSwapsTwo(rows: seq<Rule>, id: int, delta: int)
    requires Keyed(rows) && InRange(rows, id, delta)
    ensures var r := FindRow(rows, id).value;
            var list := Listed(rows, r.scope, r.owner);
            && Listed(Moved(rows, id, delta), r.scope, r.owner)
               == Numbered(Swapped(list, Place(list, id), Place(list, id) + delta))
            && forall k :: 0 <= k < |rows| && !(rows[k].scope == r.scope && rows[k].owner == r.owner) ==>
                 Moved(rows, id, delta)[k] == rows[k]
  {
    var r := FindRow(rows, id).value;
    var at := Place(Listed(rows, r.scope, r.owner), id);
    SwapInListing(rows, r.scope, r.owner, at, at + delta);
    hide Listed, Place, FindRow, Renumbered, Numbered, Swapped, Keyed;
  }

  lemma SwapInListing(rows: seq<Rule>, scope: string, owner: int, i: nat, j: nat)
    requires Keyed(rows) && i < |Listed(rows, scope, owner)| && j < |Listed(rows, scope, owner)|
    ensures var target := Swapped(Listed(rows, scope, owner), i, j);
            && Listed(Renumbered(rows, target), scope, owner) == Numbered(target)
            && forall k :: 0 <= k < |rows| && !(rows[k].scope == scope && rows[k].owner == owner) ==>
                 Renumbered(rows, target)[k] == rows[k]
  {
    ListedExactly(rows, scope, owner);
    hide Listed, Renumbered, Numbered, Swapped, Keyed, Sorted;
    var list := Listed(rows, scope, owner);
    SwappedKeepsRules(list, i, j);
    var target := Swapped(list, i, j);
    ListedAfterRenumbering(rows, scope, owner, target);
    OthersStay(rows, scope, owner, target);
  }

  lemma OthersStay(rows: seq<Rule>, scope: string, owner: int, list: seq<Rule>)
    requires Keyed(rows)
    requires forall r :: r in list ==> r in rows && r.scope == scope && r.owner == owner
    ensures forall k :: 0 <= k < |rows| && !(rows[k].scope == scope && rows[k].owner == owner) ==>
      Renumbered(rows, list)[k] == rows[k]
  {
    hide Place;
    forall k | 0 <= k < |rows| && !(rows[k].scope == scope && rows[k].owner == owner)
      ensures Renumbered(rows, list)[k] == rows[k]
    {
      if Place(list, rows[k].id) >= 0 {
        var t := list[Place(list, rows[k].id)];
        assert t in list;
        OneRowPerId(rows, t, k);
      }
    }
  }

  // ---- moving back

  lemma {:induction false} FindRowAt(rows: seq<Rule>, k: nat)
    requires Keyed(rows) && k < |rows|
    ensures FindRow(rows, rows[k].id) == Some(rows[k])
  {
    if k > 0 {
      assert rows[1..][k - 1] == rows[k];
      FindRowAt(rows[1..], k - 1);
    }
  }

  lemma PlaceNumbered(list: seq<Rule>, id: int)
    requires Keyed(list)
    ensures Place(Numbered(list), id) == Place(list, id)
  {
    var k := Place(list, id);
    if k >= 0 {
      assert Numbered(list)[k].id == id;
      PlaceIs(Numbered(list), k);
    }
  }

  /** Renumbering does not lose the row, nor change whose it is. */
  lemma FindAfterMove(rows: seq<Rule>, id: int, delta: int)
    requires Keyed(rows) && FindRow(rows, id).Some?
    ensures Keyed(Moved(rows, id, delta))
    ensures var r := FindRow(Moved(rows, id, delta), id);
            r.Some? && r.value.scope == FindRow(rows, id).value.scope && r.value.owner == FindRow(rows, id).value.owner
  {
    var k :| 0 <= k < |rows| && rows[k] == FindRow(rows, id).value;
    FindRowAt(Moved(rows, id, delta), k);
  }

  /** Moving a rule by delta and then back gives the owner's rules in the order they
      were in, numbered from 0. */
  lemma MoveBackRestores(rows: seq<Rule>, id: int, delta: int)
    requires Keyed(rows) && InRange(rows, id, delta)
    ensures var r := FindRow(rows, id).value;
            var once := Moved(rows, id, delta);
            && InRange(once, id, -delta)
            && Listed(Moved(once, id, -delta), r.scope, r.owner) == Numbered(Listed(rows, r.scope, r.owner))
  {
    hide Listed, Place, FindRow, Renumbered, Keyed, Numbered, Swapped, Moved;
    var r := FindRow(rows, id).value;
    var list, once := Listed(rows, r.scope, r.owner), Moved(rows, id, delta);
    var i, j := Place(list, id), Place(list, id) + delta;
    ListedExactly(rows, r.scope, r.owner);
    MoveSwapsTwo(rows, id, delta);
    FindAfterMove(rows, id, delta);
    SwapBack(list, i, j, id);
    var swapped := Numbered(Swapped(list, i, j));
    assert Listed(once, r.scope, r.owner) == swapped && Place(swapped, id) == j;
    MoveSwapsTwo(once, id, -delta);
  }

  lemma SwapBack(list: seq<Rule>, i: nat, j: nat, id: int)
    requires Keyed(list) && i < |list| && j < |list| && Place(list, id) == i
    ensures var swapped := Numbered(Swapped(list, i, j));
            Place(swapped, id) == j && Numbered(Swapped(swapped, j, i)) == Numbered(list)
  {
    hide Place;
    SwappedKeepsRules(list, i, j);
    assert Swapped(list, i, j)[j].id == id;
    PlaceIs(Swapped(list, i, j), j);
    PlaceNumbered(Swapped(list, i, j), id);
  }
}
