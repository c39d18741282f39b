/** The first half of `enrichOrders` (my-app/src/DeliveryOptimizer.jsx): raw
    rows are grouped by `String(row.id)` in a plain object, and the groups are
    then visited in `Object.entries` order. */
module Grouping {
  import opened JsValues
  import opened Sequences

  /** The property key a row is filed under: `String(row.id)`. A row without
      an id is filed under "undefined", a row whose id is null under "null". */
  function GroupKey(row: Value): string
  {
    ToJsString(Get(row, "id"))
  }

  /** The key of each row, in input order. */
  function RowKeys(rows: seq<Value>): (r: seq<string>)
    ensures |r| == |rows|
    ensures forall i :: 0 <= i < |rows| ==> r[i] == GroupKey(rows[i])
  {
    seq(|rows|, i requires 0 <= i < |rows| => GroupKey(rows[i]))
  }

  /** The distinct keys in the order their first row appears. */
  function FirstSeenKeys(rows: seq<Value>): seq<string>
  {
    Distinct(RowKeys(rows))
  }

  /** The rows filed under `k`, in input order. */
  function RowsWithKey(rows: seq<Value>, k: string): seq<Value>
  {
    Filter(rows, (row: Value) => GroupKey(row) == k)
  }

  /** What the grouping loop leaves behind: the object's own properties and
      the order in which they were created. */
  datatype GroupTable = GroupTable(groups: map<string, seq<Value>>, insertion: seq<string>)

  /** The table the loop is specified to build from `rows`. */
  ghost predicate Describes(t: GroupTable, rows: seq<Value>)
  {
    && t.insertion == FirstSeenKeys(rows)
    && (forall k :: k in t.groups <==> k in t.insertion)
    && (forall k :: k in t.groups ==> t.groups[k] == RowsWithKey(rows, k))
  }

  lemma RowKeysSnoc(rows: seq<Value>, row: Value)
    ensures RowKeys(rows + [row]) == RowKeys(rows) + [GroupKey(row)]
  {
  }

  lemma RowsWithKeySnoc(rows: seq<Value>, row: Value, k: string)
    ensures RowsWithKey(rows + [row], k) ==
            RowsWithKey(rows, k) + (if GroupKey(row) == k then [row] else [])
  {
    assert (rows + [row])[..|rows + [row]| - 1] == rows;
  }

  /** A key is first seen exactly when it is the key of some row. */
  lemma FirstSeenMembership(rows: seq<Value>, k: string)
    ensures k in FirstSeenKeys(rows) <==> exists i :: 0 <= i < |rows| && GroupKey(rows[i]) == k
  {
    DistinctProperties(RowKeys(rows));
    if k in RowKeys(rows) {
      var i :| 0 <= i < |rows| && RowKeys(rows)[i] == k;
    }
  }

  /** A key's rows are non-empty exactly when the key occurs. */
  lemma RowsWithKeyEmpty(rows: seq<Value>, k: string)
    ensures RowsWithKey(rows, k) == [] <==> k !in FirstSeenKeys(rows)
  {
    var p := (row: Value) => GroupKey(row) == k;
    FirstSeenMembership(rows, k);
    if k in FirstSeenKeys(rows) {
      var i :| 0 <= i < |rows| && GroupKey(rows[i]) == k;
      FilterMembership(rows, p, rows[i]);
    } else if RowsWithKey(rows, k) != [] {
      var x := RowsWithKey(rows, k)[0];
      FilterMembership(rows, p, x);
      assert false;
    }
  }

  /** The groups as a map from key to rows. */
  function GroupMap(rows: seq<Value>): map<string, seq<Value>>
  {
    map k | k in FirstSeenKeys(rows) :: RowsWithKey(rows, k)
  }

  /** `GroupMap` and `FirstSeenKeys` are the table the loop is specified to
      build. */
  lemma GroupMapDescribes(rows: seq<Value>)
    ensures Describes(GroupTable(GroupMap(rows), FirstSeenKeys(rows)), rows)
  {
  }

  /** A row's key is first seen unless an earlier row had it. */
  lemma FirstSeenSnoc(prior: seq<Value>, row: Value)
    ensures FirstSeenKeys(prior + [row]) ==
      if GroupKey(row) in FirstSeenKeys(prior) then FirstSeenKeys(prior) else FirstSeenKeys(prior) + [GroupKey(row)]
  {
    RowKeysSnoc(prior, row);
    DistinctSnoc(RowKeys(prior), GroupKey(row));
  }

  lemma GroupMapDomainSnoc(prior: seq<Value>, row: Value)
    ensures forall k :: k in GroupMap(prior + [row]) <==> k in GroupMap(prior) || k == GroupKey(row)
  {
    FirstSeenSnoc(prior, row);
  }

  lemma GroupMapValueSnoc(prior: seq<Value>, row: Value, k: string)
    requires k in GroupMap(prior + [row])
    requires k in GroupMap(prior) || k == GroupKey(row)
    ensures GroupMap(prior + [row])[k] ==
      if k != GroupKey(row) then GroupMap(prior)[k]
      else if k in GroupMap(prior) then GroupMap(prior)[k] + [row]
      else [row]
  {
    RowsWithKeySnoc(prior, row, k);
    GroupMapDomainSnoc(prior, row);
    if k == GroupKey(row) && k !in GroupMap(prior) {
      RowsWithKeyEmpty(prior, k);
    }
  }

  /** Filing one more row into the groups. */
  lemma GroupMapSnoc(prior: seq<Value>, row: Value)
    ensures var key := GroupKey(row);
      GroupMap(prior + [row]) ==
        if key in GroupMap(prior) then GroupMap(prior)[key := GroupMap(prior)[key] + [row]]
        else GroupMap(prior)[key := [row]]
  {
    var rows := prior + [row];
    var key := GroupKey(row);
    var expected := if key in GroupMap(prior) then GroupMap(prior)[key := GroupMap(prior)[key] + [row]]
                    else GroupMap(prior)[key := [row]];
    GroupMapDomainSnoc(prior, row);
    forall k | k in GroupMap(rows) ensures GroupMap(rows)[k] == expected[k] {
      GroupMapValueSnoc(prior, row, k);
    }
  }

  /** One iteration of the grouping loop, from the table of the rows before
      `row` to the table of the rows up to it. */
  lemma FileRow(groups: map<string, seq<Value>>, insertion: seq<string>, prior: seq<Value>, row: Value)
    requires groups == GroupMap(prior) && insertion == FirstSeenKeys(prior)
    ensures var key := GroupKey(row);
      var created := if key in groups then groups else groups[key := []];
      && created[key := created[key] + [row]] == GroupMap(prior + [row])
      && (if key in groups then insertion else insertion + [key]) == FirstSeenKeys(prior + [row])
  {
    var key := GroupKey(row);
    GroupMapSnoc(prior, row);
    FirstSeenSnoc(prior, row);
    if key !in groups {
      var created := groups[key := []];
      assert created[key := created[key] + [row]] == groups[key := [row]];
    }
  }

  /** The grouping loop of `enrichOrders`: each row is appended to the list
      of its key, the list being created when the key is first met. Reading
      `row.id` of a `null` or `undefined` row throws. */
  method GroupRows(rows: seq<Value>) returns (r: Completion<GroupTable>)
    ensures r.TypeError? <==> !NoNullish(rows)
    ensures r.Normal? ==> Describes(r.value, rows)
  {
    var groups: map<string, seq<Value>> := map[];
    var insertion: seq<string> := [];
    var i := 0;
    while i < |rows|
      invariant 0 <= i <= |rows|
      invariant NoNullish(rows[..i])
      invariant groups == GroupMap(rows[..i]) && insertion == FirstSeenKeys(rows[..i])
    {
      var row := rows[i];
      if Nullish(row) {
        return TypeError;
      }
      var key := ToJsString(Get(row, "id"));
      FileRow(groups, insertion, rows[..i], row);
      assert rows[..i + 1] == rows[..i] + [row];
      if key !in groups {
        groups := groups[key := []];
        insertion := insertion + [key];
      }
      groups := groups[key := groups[key] + [row]];
      i := i + 1;
    }
    assert rows[..i] == rows;
    GroupMapDescribes(rows);
    r := Normal(GroupTable(groups, insertion));
  }

  /** Every key's rows, concatenated in the order of `keys`. */
  function Concatenated(rows: seq<Value>, keys: seq<string>): seq<Value>
    decreases |keys|
  {
    if keys == [] then [] else Concatenated(rows, keys[..|keys| - 1]) + RowsWithKey(rows, keys[|keys| - 1])
  }

  lemma {:induction false} ConcatenatedSnocRow(rows: seq<Value>, row: Value, keys: seq<string>)
    requires NoDuplicates(keys)
    ensures multiset(Concatenated(rows + [row], keys)) ==
            multiset(Concatenated(rows, keys)) + (if GroupKey(row) in keys then multiset{row} else multiset{})
    decreases |keys|
  {
    if keys != [] {
      var n := |keys| - 1;
      var front := keys[..n];
      assert keys == front + [keys[n]];
      ConcatenatedSnocRow(rows, row, front);
      RowsWithKeySnoc(rows, row, keys[n]);
      if GroupKey(row) == keys[n] {
        assert GroupKey(row) !in front;
      }
    }
  }

  /** A key without rows adds nothing to the concatenation. */
  lemma ConcatenatedEmptyKey(rows: seq<Value>, keys: seq<string>, k: string)
    requires RowsWithKey(rows, k) == []
    ensures Concatenated(rows, keys + [k]) == Concatenated(rows, keys)
  {
    assert (keys + [k])[..|keys|] == keys;
  }

  /** Every input row lands in exactly one group: the groups, laid end to end,
      hold the input rows, each as often as it occurs. */
  lemma {:induction false} GroupsPartitionRows(rows: seq<Value>)
    ensures multiset(Concatenated(rows, FirstSeenKeys(rows))) == multiset(rows)
    decreases |rows|
  {
    if rows != [] {
      var n := |rows| - 1;
      var prior := rows[..n];
      var row := rows[n];
      var k := GroupKey(row);
      assert rows == prior + [row];
      GroupsPartitionRows(prior);
      FirstSeenSnoc(prior, row);
      DistinctProperties(RowKeys(rows));
      ConcatenatedSnocRow(prior, row, FirstSeenKeys(rows));
      assert k in FirstSeenKeys(rows);
      if k !in FirstSeenKeys(prior) {
        RowsWithKeyEmpty(prior, k);
        ConcatenatedEmptyKey(prior, FirstSeenKeys(prior), k);
      }
    }
  }

  /** `1` and `"1"` name the same group, and so do all rows without an id. */
  lemma KeysAreStringCoerced()
    ensures GroupKey(Obj(map["id" := Num(IntNumber(1))])) == GroupKey(Obj(map["id" := Str("1")]))
    ensures GroupKey(Obj(map[])) == GroupKey(Obj(map["id" := Undefined])) == "undefined"
    ensures GroupKey(Obj(map["id" := Null])) == "null"
  {
    assert NatText(1) == "1";
  }

  // ---------------------------------------------------------------------
  // Entry order

  /** Keys other than array indices. */
  predicate IsNamedKey(k: string)
  {
    !IsArrayIndex(k)
  }

  predicate AscendingIndices(s: seq<string>)
  {
    forall i, j :: 0 <= i < j < |s| ==> DigitsValue(s[i]) <= DigitsValue(s[j])
  }

  function InsertByIndex(k: string, s: seq<string>): seq<string>
    decreases |s|
  {
    if s == [] then [k]
    else if DigitsValue(k) <= DigitsValue(s[0]) then [k] + s
    else [s[0]] + InsertByIndex(k, s[1..])
  }

  lemma {:induction false} InsertByIndexContents(k: string, s: seq<string>)
    ensures multiset(InsertByIndex(k, s)) == multiset(s) + multiset{k}
    decreases |s|
  {
    if s != [] && DigitsValue(k) > DigitsValue(s[0]) {
      InsertByIndexContents(k, s[1..]);
      assert s == [s[0]] + s[1..];
    }
  }

  lemma {:induction false} InsertByIndexBound(b: int, k: string, s: seq<string>)
    requires b <= DigitsValue(k)
    requires forall i :: 0 <= i < |s| ==> b <= DigitsValue(s[i])
    ensures forall i :: 0 <= i < |InsertByIndex(k, s)| ==> b <= DigitsValue(InsertByIndex(k, s)[i])
    decreases |s|
  {
    if s != [] && DigitsValue(k) > DigitsValue(s[0]) {
      InsertByIndexBound(b, k, s[1..]);
    }
  }

  lemma {:induction false} InsertByIndexAscending(k: string, s: seq<string>)
    requires AscendingIndices(s)
    ensures AscendingIndices(InsertByIndex(k, s))
    decreases |s|
  {
    if s != [] && DigitsValue(k) > DigitsValue(s[0]) {
      var rest := InsertByIndex(k, s[1..]);
      InsertByIndexAscending(k, s[1..]);
      InsertByIndexBound(DigitsValue(s[0]), k, s[1..]);
      var r := [s[0]] + rest;
      forall i, j | 0 <= i < j < |r| ensures DigitsValue(r[i]) <= DigitsValue(r[j]) {
        assert r[j] == rest[j - 1];
        if i > 0 {
          assert r[i] == rest[i - 1];
        }
      }
    }
  }

  function SortByIndex(s: seq<string>): (r: seq<string>)
    ensures multiset(r) == multiset(s)
    ensures AscendingIndices(r)
    decreases |s|
  {
    if s == [] then []
    else
      assert s == [s[0]] + s[1..];
      InsertByIndexContents(s[0], SortByIndex(s[1..]));
      InsertByIndexAscending(s[0], SortByIndex(s[1..]));
      InsertByIndex(s[0], SortByIndex(s[1..]))
  }

  /** The order in which `Object.entries` lists an object's own keys, given
      the order they were created in: array indices first, ascending, then
      the other keys in creation order. */
  function EntryOrder(insertion: seq<string>): seq<string>
  {
    SortByIndex(Filter(insertion, IsArrayIndex)) + Filter(insertion, IsNamedKey)
  }

  lemma {:induction false} FilterSplitsMultiset(s: seq<string>)
    ensures multiset(Filter(s, IsArrayIndex)) + multiset(Filter(s, IsNamedKey)) == multiset(s)
    decreases |s|
  {
    if s != [] {
      FilterSplitsMultiset(s[..|s| - 1]);
      assert s == s[..|s| - 1] + [s[|s| - 1]];
    }
  }

  lemma {:induction false} CountAtMostOne(b: seq<string>, x: string)
    requires NoDuplicates(b)
    ensures multiset(b)[x] <= 1
    decreases |b|
  {
    if b != [] {
      var n := |b| - 1;
      assert b == b[..n] + [b[n]];
      CountAtMostOne(b[..n], x);
      if b[n] == x {
        assert x !in b[..n];
      }
    }
  }

  lemma NoDuplicatesFromMultiset(a: seq<string>, b: seq<string>)
    requires multiset(a) == multiset(b)
    requires NoDuplicates(b)
    ensures NoDuplicates(a)
  {
    if !NoDuplicates(a) {
      var i, j :| 0 <= i < j < |a| && a[i] == a[j];
      assert a == a[..i] + [a[i]] + a[i + 1..j] + [a[j]] + a[j + 1..];
      assert multiset(a)[a[i]] >= 2;
      CountAtMostOne(b, a[i]);
    }
  }

  /** `Object.entries` lists every key once, puts the array indices first in
      ascending order, and keeps the creation order of the other keys. */
  lemma EntryOrderProperties(insertion: seq<string>)
    requires NoDuplicates(insertion)
    ensures multiset(EntryOrder(insertion)) == multiset(insertion)
    ensures NoDuplicates(EntryOrder(insertion))
    ensures forall i, j :: 0 <= i < j < |EntryOrder(insertion)| && IsArrayIndex(EntryOrder(insertion)[j]) ==>
      IsArrayIndex(EntryOrder(insertion)[i]) && DigitsValue(EntryOrder(insertion)[i]) <= DigitsValue(EntryOrder(insertion)[j])
    ensures Filter(EntryOrder(insertion), IsNamedKey) == Filter(insertion, IsNamedKey)
  {
    var ix := Filter(insertion, IsArrayIndex);
    var named := Filter(insertion, IsNamedKey);
    var sorted := SortByIndex(ix);
    var r := EntryOrder(insertion);
    FilterSplitsMultiset(insertion);
    NoDuplicatesFromMultiset(r, insertion);
    forall x | x in sorted ensures IsArrayIndex(x) {
      assert x in multiset(ix);
      FilterMembership(insertion, IsArrayIndex, x);
    }
    forall x | x in named ensures IsNamedKey(x) {
      FilterMembership(insertion, IsNamedKey, x);
    }
    forall j | |sorted| <= j < |r| ensures !IsArrayIndex(r[j]) {
      assert r[j] in named;
    }
    forall i, j | 0 <= i < j < |r| && IsArrayIndex(r[j])
      ensures IsArrayIndex(r[i]) && DigitsValue(r[i]) <= DigitsValue(r[j])
    {
      assert r[i] in sorted;
    }
    FilterAppend(sorted, named, IsNamedKey);
    assert Filter(sorted, IsNamedKey) == [] by {
      if Filter(sorted, IsNamedKey) != [] {
        FilterMembership(sorted, IsNamedKey, Filter(sorted, IsNamedKey)[0]);
      }
    }
    FilterKeepsAll(named, IsNamedKey);
  }

  // ---------------------------------------------------------------------
  // The grouping loop as written

  /** The members an ordinary object `{}` inherits from Object.prototype.
      Reading one gives a function (for "__proto__", the prototype object),
      never a falsy value. */
  const InheritedNames: set<string> := {
    "constructor", "hasOwnProperty", "isPrototypeOf", "propertyIsEnumerable",
    "toString", "toLocaleString", "valueOf", "__proto__",
    "__defineGetter__", "__defineSetter__", "__lookupGetter__", "__lookupSetter__"
  }

  /** One iteration of the loop as written: `!groupedByOrderId[orderId]`
      also sees inherited members, so for such a key no list is created and
      `.push` is called on a value that has no `push`, which throws. */
  function PushAsWritten(groups: map<string, seq<Value>>, key: string, row: Value): Completion<map<string, seq<Value>>>
  {
    if key in groups then Normal(groups[key := groups[key] + [row]])
    else if key in InheritedNames then TypeError
    else Normal(groups[key := [row]])
  }

  /** The whole grouping loop as written, on a plain object. */
  function GroupAsWritten(rows: seq<Value>): Completion<map<string, seq<Value>>>
    decreases |rows|
  {
    if rows == [] then Normal(map[])
    else
      match GroupAsWritten(rows[..|rows| - 1])
      case TypeError => TypeError
      case Normal(groups) =>
        var row := rows[|rows| - 1];
        if Nullish(row) then TypeError else PushAsWritten(groups, GroupKey(row), row)
  }

  /** Off the inherited names, the loop as written builds the intended groups. */
  lemma {:induction false} AsWrittenAgreesOffPrototype(rows: seq<Value>)
    requires NoNullish(rows)
    requires forall i :: 0 <= i < |rows| ==> GroupKey(rows[i]) !in InheritedNames
    ensures GroupAsWritten(rows) == Normal(GroupMap(rows))
    decreases |rows|
  {
    if rows != [] {
      var n := |rows| - 1;
      assert rows == rows[..n] + [rows[n]];
      AsWrittenAgreesOffPrototype(rows[..n]);
      GroupMapSnoc(rows[..n], rows[n]);
    }
  }

  /** An order whose id is "constructor" stops the loop as written with a
      TypeError, where the intended grouping files it as one group. */
  lemma InheritedIdBreaksGrouping()
    ensures GroupAsWritten([Obj(map["id" := Str("constructor")])]) == TypeError
    ensures |FirstSeenKeys([Obj(map["id" := Str("constructor")])])| == 1
  {
    var rows := [Obj(map["id" := Str("constructor")])];
    assert rows[..0] == [];
    assert RowKeys(rows) == ["constructor"];
    assert RowKeys(rows)[..0] == [];
  }
}
