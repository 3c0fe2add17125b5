/** `flatten` of backend/clients/helm.js, which FilePicker.tsx and
    EditDialog.tsx repeat word for word: a parsed YAML tree is turned into
    dotted/indexed keys, each bound to a leaf, which become `--set
    key=value` arguments. The source writes into one shared `result`
    object from a recursive helper; here that object is an
    insertion-ordered list of pairs (a JavaScript object keeps its string
    keys in insertion order, and assigning to an existing key keeps its
    place). */
module Flatten {
  import opened Wrappers
  import opened Strings

  /** A parsed YAML value. `Null` and `Scalar` are the values for which
      `Object(cur) !== cur` holds (null, strings, numbers, booleans; a
      scalar is carried as its text). `Obj` lists its members in the order
      `for…in` visits them. */
  datatype Yaml = Null | Scalar(text: string) | Arr(items: seq<Yaml>) | Obj(members: seq<(string, Yaml)>)

  /** The number of children of a node. */
  function Width(y: Yaml): nat
  {
    match y
    case Arr(items) => |items|
    case Obj(members) => |members|
    case _ => 0
  }

  /** A JavaScript object used as a dictionary: its entries in insertion
      order. */
  type Dict = seq<(string, Yaml)>

  /** The keys of a dictionary. */
  function Keys(d: Dict): set<string>
  {
    set i | 0 <= i < |d| :: d[i].0
  }

  /** No key appears twice, as in any JavaScript object. */
  predicate UniqueKeys(d: Dict)
  {
    forall i, j :: 0 <= i < j < |d| ==> d[i].0 != d[j].0
  }

  /** The slot of key `k`, or -1. */
  function KeyIndex(d: Dict, k: string): (i: int)
    ensures -1 <= i < |d|
    ensures i >= 0 ==> d[i].0 == k
    ensures i == -1 ==> k !in Keys(d)
  {
    if d == [] then -1
    else if d[|d| - 1].0 == k then |d| - 1
    else
      var i := KeyIndex(d[..|d| - 1], k);
      assert Keys(d) == Keys(d[..|d| - 1]) + {d[|d| - 1].0};
      i
  }

  /** `d[k] = v`: an existing key keeps its slot and takes the new value;
      a new key is appended. Nothing else changes. */
  function Put(d: Dict, k: string, v: Yaml): (r: Dict)
    ensures (k, v) in r
    ensures Keys(r) == Keys(d) + {k}
    ensures forall e :: e in r ==> e in d || e == (k, v)
    ensures UniqueKeys(d) ==> UniqueKeys(r)
    ensures |d| <= |r| && forall i :: 0 <= i < |d| ==> r[i].0 == d[i].0
    ensures forall i :: 0 <= i < |d| && d[i].0 != k ==> r[i] == d[i]
  {
    var i := KeyIndex(d, k);
    if i < 0 then
      var r := d + [(k, v)];
      assert Keys(r) == Keys(d) + {k} by {
        assert forall j :: 0 <= j < |d| ==> r[j] == d[j];
        assert r[|d|].0 == k;
      }
      assert r[|d|] == (k, v);
      r
    else
      var r := d[i := (k, v)];
      assert Keys(r) == Keys(d) + {k} by {
        assert forall j :: 0 <= j < |d| ==> r[j].0 == d[j].0;
      }
      assert r[i] == (k, v);
      r
  }

  /** The key under which element `i` of an array at `prop` is stored. */
  function ElementPath(prop: string, i: nat): string
  {
    prop + "[" + NatToString(i) + "]"
  }

  /** The key under which member `k` of an object at `prop` is stored:
      `prop ? prop + '.' + k : k`. */
  function MemberPath(prop: string, k: string): string
  {
    if prop != "" then prop + "." + k else k
  }

  /** What `recurse(cur, prop)` leaves in `result` when it starts as `acc`
      (backend/clients/helm.js, lines 90-110). */
  function Walk(cur: Yaml, prop: string, acc: Dict): Dict
    decreases cur, Width(cur) + 1
  {
    match cur
    case Null => Put(acc, prop, cur)
    case Scalar(_) => Put(acc, prop, cur)
    case Arr(items) => WalkItems(items, prop, 0, acc)
    case Obj(members) =>
      var r := WalkMembers(members, prop, 0, acc);
      if |members| == 0 && prop != "" then Put(r, prop, Obj([])) else r
  }

  /** The array loop from index `i` on. */
  function WalkItems(items: seq<Yaml>, prop: string, i: nat, acc: Dict): Dict
    decreases Arr(items), |items| - i
  {
    if i >= |items| then acc
    else WalkItems(items, prop, i + 1, Walk(items[i], ElementPath(prop, i), acc))
  }

  /** The `for…in` loop from member `i` on. */
  function WalkMembers(members: seq<(string, Yaml)>, prop: string, i: nat, acc: Dict): Dict
    decreases Obj(members), |members| - i
  {
    if i >= |members| then acc
    else WalkMembers(members, prop, i + 1, Walk(members[i].1, MemberPath(prop, members[i].0), acc))
  }

  /** `flatten(data)`. */
  function Flatten(data: Yaml): Dict
  {
    Walk(data, "", [])
  }

  // ---------------------------------------------------------------------
  // An independent description of the result: paths into the tree.

  /** One step down the tree: array element `i`, or the object member in
      position `j`. */
  datatype Step = Index(i: nat) | Field(j: nat)

  /** The node reached from `cur` along `steps`, if the steps exist. */
  function NodeAt(cur: Yaml, steps: seq<Step>): Option<Yaml>
    decreases |steps|
  {
    if steps == [] then Some(cur)
    else
      match steps[0]
      case Index(i) =>
        if cur.Arr? && i < |cur.items| then NodeAt(cur.items[i], steps[1..]) else None
      case Field(j) =>
        if cur.Obj? && j < |cur.members| then NodeAt(cur.members[j].1, steps[1..]) else None
  }

  /** The key that names the node reached along `steps`, starting from the
      key `prop` of `cur`. */
  function PathKey(cur: Yaml, prop: string, steps: seq<Step>): string
    decreases |steps|
  {
    if steps == [] then prop
    else
      match steps[0]
      case Index(i) =>
        if cur.Arr? && i < |cur.items| then PathKey(cur.items[i], ElementPath(prop, i), steps[1..]) else prop
      case Field(j) =>
        if cur.Obj? && j < |cur.members| then
          PathKey(cur.members[j].1, MemberPath(prop, cur.members[j].0), steps[1..])
        else prop
  }

  /** The values that `flatten` stores: primitives and empty objects. */
  predicate IsLeaf(y: Yaml)
  {
    y.Null? || y.Scalar? || y == Obj([])
  }

  /** `leaf` is a node of `cur` that `flatten` records, and `key` is its
      path: a primitive anywhere, or an empty object whose key is not
      empty. An empty array is no leaf. */
  predicate LeafAt(cur: Yaml, prop: string, steps: seq<Step>, key: string, leaf: Yaml)
  {
    NodeAt(cur, steps) == Some(leaf) && IsLeaf(leaf) && key == PathKey(cur, prop, steps)
    && (leaf.Obj? ==> key != "")
  }

  /** A leaf of array element `j` is a leaf of the array. */
  lemma LiftIndex(items: seq<Yaml>, prop: string, j: nat, steps: seq<Step>, key: string, leaf: Yaml)
    requires j < |items| && LeafAt(items[j], ElementPath(prop, j), steps, key, leaf)
    ensures LeafAt(Arr(items), prop, [Index(j)] + steps, key, leaf)
  {
    assert ([Index(j)] + steps)[1..] == steps;
  }

  /** A leaf of member `j` is a leaf of the object. */
  lemma LiftField(members: seq<(string, Yaml)>, prop: string, j: nat, steps: seq<Step>, key: string, leaf: Yaml)
    requires j < |members| && LeafAt(members[j].1, MemberPath(prop, members[j].0), steps, key, leaf)
    ensures LeafAt(Obj(members), prop, [Field(j)] + steps, key, leaf)
  {
    assert ([Field(j)] + steps)[1..] == steps;
  }

  /** Every entry `recurse` adds is a leaf of `cur` under its own path. */
  lemma {:induction false} WalkSound(cur: Yaml, prop: string, acc: Dict)
    ensures forall e :: e in Walk(cur, prop, acc) ==> e in acc || exists st :: LeafAt(cur, prop, st, e.0, e.1)
    decreases cur, Width(cur) + 1
  {
    match cur
    case Null =>
      assert LeafAt(cur, prop, [], prop, cur);
    case Scalar(_) =>
      assert LeafAt(cur, prop, [], prop, cur);
    case Arr(items) =>
      WalkItemsSound(items, prop, 0, acc);
      forall e | e in Walk(cur, prop, acc) && e !in acc
        ensures exists st :: LeafAt(cur, prop, st, e.0, e.1)
      {
        var j, st :| 0 <= j < |items| && LeafAt(items[j], ElementPath(prop, j), st, e.0, e.1);
        LiftIndex(items, prop, j, st, e.0, e.1);
      }
    case Obj(members) =>
      WalkMembersSound(members, prop, 0, acc);
      if |members| == 0 && prop != "" {
        assert LeafAt(cur, prop, [], prop, Obj([]));
      }
      forall e | e in Walk(cur, prop, acc) && e !in acc
        ensures exists st :: LeafAt(cur, prop, st, e.0, e.1)
      {
        if |members| == 0 {
          assert e == (prop, Obj([]));
          assert LeafAt(cur, prop, [], prop, Obj([]));
        } else {
          var j, st :| 0 <= j < |members| && LeafAt(members[j].1, MemberPath(prop, members[j].0), st, e.0, e.1);
          LiftField(members, prop, j, st, e.0, e.1);
        }
      }
  }

  lemma {:induction false} WalkItemsSound(items: seq<Yaml>, prop: string, i: nat, acc: Dict)
    ensures forall e :: e in WalkItems(items, prop, i, acc) ==>
      e in acc || exists j, st :: i <= j < |items| && LeafAt(items[j], ElementPath(prop, j), st, e.0, e.1)
    decreases Arr(items), |items| - i
  {
    if i < |items| {
      var acc' := Walk(items[i], ElementPath(prop, i), acc);
      WalkSound(items[i], ElementPath(prop, i), acc);
      WalkItemsSound(items, prop, i + 1, acc');
    }
  }

  lemma {:induction false} WalkMembersSound(members: seq<(string, Yaml)>, prop: string, i: nat, acc: Dict)
    ensures forall e :: e in WalkMembers(members, prop, i, acc) ==>
      e in acc || exists j, st :: i <= j < |members| && LeafAt(members[j].1, MemberPath(prop, members[j].0), st, e.0, e.1)
    decreases Obj(members), |members| - i
  {
    if i < |members| {
      var acc' := Walk(members[i].1, MemberPath(prop, members[i].0), acc);
      WalkSound(members[i].1, MemberPath(prop, members[i].0), acc);
      WalkMembersSound(members, prop, i + 1, acc');
    }
  }

  /** `recurse` keeps every key already present and adds the path of every
      leaf of `cur`. */
  lemma {:induction false} WalkComplete(cur: Yaml, prop: string, acc: Dict)
    ensures Keys(acc) <= Keys(Walk(cur, prop, acc))
    ensures forall st, k, v :: LeafAt(cur, prop, st, k, v) ==> k in Keys(Walk(cur, prop, acc))
    decreases cur, Width(cur) + 1
  {
    match cur
    case Null =>
    case Scalar(_) =>
    case Arr(items) =>
      WalkItemsComplete(items, prop, 0, acc);
      forall st, k, v | LeafAt(cur, prop, st, k, v)
        ensures k in Keys(Walk(cur, prop, acc))
      {
        assert st != [];
        match st[0]
        case Index(j) =>
          assert LeafAt(items[j], ElementPath(prop, j), st[1..], k, v);
      }
    case Obj(members) =>
      WalkMembersComplete(members, prop, 0, acc);
      var r := WalkMembers(members, prop, 0, acc);
      if |members| == 0 && prop != "" {
        assert Keys(r) <= Keys(Put(r, prop, Obj([])));
      }
      forall st, k, v | LeafAt(cur, prop, st, k, v)
        ensures k in Keys(Walk(cur, prop, acc))
      {
        if st == [] {
          assert v == Obj([]) && k == prop;
        } else {
          match st[0]
          case Field(j) =>
            assert LeafAt(members[j].1, MemberPath(prop, members[j].0), st[1..], k, v);
        }
      }
  }

  lemma {:induction false} WalkItemsComplete(items: seq<Yaml>, prop: string, i: nat, acc: Dict)
    ensures Keys(acc) <= Keys(WalkItems(items, prop, i, acc))
    ensures forall j, st, k, v :: i <= j < |items| && LeafAt(items[j], ElementPath(prop, j), st, k, v) ==>
      k in Keys(WalkItems(items, prop, i, acc))
    decreases Arr(items), |items| - i
  {
    if i < |items| {
      var acc' := Walk(items[i], ElementPath(prop, i), acc);
      WalkComplete(items[i], ElementPath(prop, i), acc);
      WalkItemsComplete(items, prop, i + 1, acc');
    }
  }

  lemma {:induction false} WalkMembersComplete(members: seq<(string, Yaml)>, prop: string, i: nat, acc: Dict)
    ensures Keys(acc) <= Keys(WalkMembers(members, prop, i, acc))
    ensures forall j, st, k, v :: i <= j < |members| && LeafAt(members[j].1, MemberPath(prop, members[j].0), st, k, v) ==>
      k in Keys(WalkMembers(members, prop, i, acc))
    decreases Obj(members), |members| - i
  {
    if i < |members| {
      var acc' := Walk(members[i].1, MemberPath(prop, members[i].0), acc);
      WalkComplete(members[i].1, MemberPath(prop, members[i].0), acc);
      WalkMembersComplete(members, prop, i + 1, acc');
    }
  }

  /** `recurse` never stores one key twice. */
  lemma {:induction false} WalkUnique(cur: Yaml, prop: string, acc: Dict)
    requires UniqueKeys(acc)
    ensures UniqueKeys(Walk(cur, prop, acc))
    decreases cur, Width(cur) + 1
  {
    match cur
    case Null =>
    case Scalar(_) =>
    case Arr(items) => WalkItemsUnique(items, prop, 0, acc);
    case Obj(members) => WalkMembersUnique(members, prop, 0, acc);
  }

  lemma {:induction false} WalkItemsUnique(items: seq<Yaml>, prop: string, i: nat, acc: Dict)
    requires UniqueKeys(acc)
    ensures UniqueKeys(WalkItems(items, prop, i, acc))
    decreases Arr(items), |items| - i
  {
    if i < |items| {
      WalkUnique(items[i], ElementPath(prop, i), acc);
      WalkItemsUnique(items, prop, i + 1, Walk(items[i], ElementPath(prop, i), acc));
    }
  }

  lemma {:induction false} WalkMembersUnique(members: seq<(string, Yaml)>, prop: string, i: nat, acc: Dict)
    requires UniqueKeys(acc)
    ensures UniqueKeys(WalkMembers(members, prop, i, acc))
    decreases Obj(members), |members| - i
  {
    if i < |members| {
      WalkUnique(members[i].1, MemberPath(prop, members[i].0), acc);
      WalkMembersUnique(members, prop, i + 1, Walk(members[i].1, MemberPath(prop, members[i].0), acc));
    }
  }

  /** What `flatten` returns: each key once; every entry is a leaf of the
      tree (a primitive or an empty object) stored under its own path; and
      the path of every leaf is a key. */
  lemma FlattenLeaves(data: Yaml)
    ensures UniqueKeys(Flatten(data))
    ensures forall e :: e in Flatten(data) ==> IsLeaf(e.1) && exists st :: LeafAt(data, "", st, e.0, e.1)
    ensures forall st, k, v :: LeafAt(data, "", st, k, v) ==> k in Keys(Flatten(data))
  {
    WalkSound(data, "", []);
    WalkComplete(data, "", []);
    WalkUnique(data, "", []);
  }

  /** A primitive root is stored under the empty key. */
  lemma FlattenPrimitiveRoot(data: Yaml)
    requires data.Null? || data.Scalar?
    ensures Flatten(data) == [("", data)]
  {
  }

  /** An empty object records `{}` under a non-empty key and nothing at
      the root. */
  lemma EmptyObject(prop: string, acc: Dict)
    ensures prop != "" ==> Walk(Obj([]), prop, acc) == Put(acc, prop, Obj([]))
    ensures Flatten(Obj([])) == []
  {
  }

  /** An empty array adds no key, at the root or below it. */
  lemma EmptyArray(prop: string, acc: Dict)
    ensures Walk(Arr([]), prop, acc) == acc
    ensures Flatten(Obj([("list", Arr([]))])) == []
  {
  }

  /** The JavaScript string of a stored value, as `key + '=' + value`
      renders it: `null`, the scalar's text, `[object Object]` for `{}`. */
  function LeafText(v: Yaml): string
  {
    match v
    case Null => "null"
    case Scalar(text) => text
    case Obj(_) => "[object Object]"
    case Arr(_) => ""
  }

  /** A `{ key, value }` row of the values editor and of `--set`. */
  datatype KeyValue = KeyValue(key: string, value: string)

  /** `rows.flatMap(r => [flag, r.key + '=' + r.value])`: the command-line
      form of rows, a flag and a `key=value` argument per row, in order. */
  function FlagPairs(flag: string, rows: seq<KeyValue>): (args: seq<string>)
    ensures |args| == 2 * |rows|
    ensures forall i :: 0 <= i < |rows| ==> args[2 * i] == flag && args[2 * i + 1] == rows[i].key + "=" + rows[i].value
  {
    if rows == [] then []
    else
      var rest := FlagPairs(flag, rows[1..]);
      var args := [flag, rows[0].key + "=" + rows[0].value] + rest;
      forall i | 0 <= i < |rows|
        ensures args[2 * i] == flag && args[2 * i + 1] == rows[i].key + "=" + rows[i].value
      {
        if i > 0 {
          assert rows[1..][i - 1] == rows[i];
          assert args[2 * i] == rest[2 * (i - 1)] && args[2 * i + 1] == rest[2 * (i - 1) + 1];
        }
      }
      args
  }

  /** The arguments of two row lists are those of each, one after the
      other. */
  lemma {:induction false} FlagPairsAppend(flag: string, a: seq<KeyValue>, b: seq<KeyValue>)
    ensures FlagPairs(flag, a + b) == FlagPairs(flag, a) + FlagPairs(flag, b)
  {
    if a == [] {
      assert a + b == b;
    } else {
      assert (a + b)[0] == a[0];
      assert (a + b)[1..] == a[1..] + b;
      FlagPairsAppend(flag, a[1..], b);
    }
  }

  /** `Object.keys(flattened).map(k => { return { key: k, value: flattened[k] } })`. */
  function ToRows(d: Dict): (rows: seq<KeyValue>)
    ensures |rows| == |d|
    ensures forall i :: 0 <= i < |d| ==> rows[i] == KeyValue(d[i].0, LeafText(d[i].1))
  {
    if d == [] then [] else [KeyValue(d[0].0, LeafText(d[0].1))] + ToRows(d[1..])
  }

  /** The shared `result` object and the recursive helper that fills it. */
  class Flattener {
    var result: Dict

    constructor ()
      ensures result == []
    {
      result := [];
    }

    /** `recurse(cur, prop)`. */
    method Recurse(cur: Yaml, prop: string)
      modifies this
      ensures result == Walk(cur, prop, old(result))
      decreases cur, 3
    {
      match cur {
        case Null =>
          result := Put(result, prop, cur);
        case Scalar(_) =>
          result := Put(result, prop, cur);
        case Arr(items) =>
          RecurseItems(items, prop);
        case Obj(members) =>
          RecurseMembers(members, prop);
      }
    }

    /** The array branch of `recurse`: the index loop over the elements. */
    method RecurseItems(items: seq<Yaml>, prop: string)
      modifies this
      ensures result == WalkItems(items, prop, 0, old(result))
      decreases Arr(items), 0
    {
      var i, l := 0, |items|;
      while i < l
        invariant 0 <= i <= l
        invariant WalkItems(items, prop, i, result) == WalkItems(items, prop, 0, old(result))
      {
        ghost var before := result;
        Recurse(items[i], ElementPath(prop, i));
        assert WalkItems(items, prop, i, before) == WalkItems(items, prop, i + 1, result);
        i := i + 1;
      }
    }

    /** The object branch of `recurse`: the `for…in` loop over the members,
        then `{}` for an empty object under a non-empty key. */
    method RecurseMembers(members: seq<(string, Yaml)>, prop: string)
      modifies this
      ensures result == Walk(Obj(members), prop, old(result))
      decreases Obj(members), 2
    {
      var isEmpty := RecurseMemberLoop(members, prop);
      if isEmpty && prop != "" {
        result := Put(result, prop, Obj([]));
      }
    }

    /** The `for…in` loop of `recurse`, which also notes whether the object
        had any member. */
    method RecurseMemberLoop(members: seq<(string, Yaml)>, prop: string) returns (isEmpty: bool)
      modifies this
      ensures isEmpty <==> |members| == 0
      ensures result == WalkMembers(members, prop, 0, old(result))
      decreases Obj(members), 1
    {
      isEmpty := true;
      for j := 0 to |members|
        invariant isEmpty == (j == 0)
        invariant WalkMembers(members, prop, j, result) == WalkMembers(members, prop, 0, old(result))
      {
        isEmpty := false;
        RecurseMember(members, prop, j);
      }
    }

    /** One pass of the `for…in` loop: `recurse` on member `j`. */
    method RecurseMember(members: seq<(string, Yaml)>, prop: string, j: nat)
      requires j < |members|
      modifies this
      ensures WalkMembers(members, prop, j, old(result)) == WalkMembers(members, prop, j + 1, result)
      decreases Obj(members), 0
    {
      Recurse(members[j].1, MemberPath(prop, members[j].0));
    }
  }

  /** `flatten(data)`: a fresh `result`, filled by `recurse(data, '')`. */
  method FlattenValues(data: Yaml) returns (result: Dict)
    ensures result == Flatten(data)
  {
    var f := new Flattener();
    f.Recurse(data, "");
    result := f.result;
  }
}
