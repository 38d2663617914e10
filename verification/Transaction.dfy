/** The transaction a merge is written through, object by object (crates/fofoca-doc/src/lib.rs). */
module Transactions {
  import opened Options
  import opened Json
  import opened Merge

  // Objects are named by where they are: each step goes to a map's entry or to a list's item.
  datatype Step = Key(key: string) | Index(index: nat)

  type ObjId = seq<Step>

  // What is one step below a value.
  function Below(v: Value, step: Step): Option<Value> {
    match step
    case Key(k) => Member(v, k)
    case Index(i) => if v.Array? && i < |v.items| then Some(v.items[i]) else None
  }

  function Lookup(root: Value, obj: ObjId): Option<Value> {
    if obj == [] then Some(root)
    else
      match Below(root, obj[0])
      case Some(v) => Lookup(v, obj[1..])
      case None => None
  }

  // The value with another put one step below it.
  function WithBelow(v: Value, step: Step, x: Value): Value
    requires Below(v, step).Some?
  {
    match step
    case Key(k) => Object(v.members[k := x])
    case Index(i) => Array(v.items[i := x])
  }

  // The document with another value at an object's place, and nothing else moved.
  function Replace(root: Value, obj: ObjId, x: Value): Value
    requires Lookup(root, obj).Some?
  {
    if obj == [] then x else WithBelow(root, obj[0], Replace(Below(root, obj[0]).value, obj[1..], x))
  }

  lemma {:induction false} ReplacedIsThere(root: Value, obj: ObjId, x: Value)
    requires Lookup(root, obj).Some?
    ensures Lookup(Replace(root, obj, x), obj) == Some(x)
    ensures Replace(root, obj, Lookup(root, obj).value) == root
    decreases |obj|
  {
    if obj != [] {
      ReplacedIsThere(Below(root, obj[0]).value, obj[1..], x);
      assert root.Object? ==> root.members[obj[0].key := root.members[obj[0].key]] == root.members;
      assert root.Array? ==> root.items[obj[0].index := root.items[obj[0].index]] == root.items;
    }
  }

  lemma {:induction false} ReplacedTwice(root: Value, obj: ObjId, x: Value, y: Value)
    requires Lookup(root, obj).Some?
    ensures Lookup(Replace(root, obj, x), obj).Some?
    ensures Replace(Replace(root, obj, x), obj, y) == Replace(root, obj, y)
    decreases |obj|
  {
    if obj != [] {
      ReplacedTwice(Below(root, obj[0]).value, obj[1..], x, y);
    }
  }

  // Replacing below an object replaces the object by one that differs there.
  lemma {:induction false} ReplacedBelow(root: Value, obj: ObjId, step: Step, x: Value)
    requires Lookup(root, obj).Some? && Below(Lookup(root, obj).value, step).Some?
    ensures Lookup(root, obj + [step]) == Below(Lookup(root, obj).value, step)
    ensures Replace(root, obj + [step], x) == Replace(root, obj, WithBelow(Lookup(root, obj).value, step, x))
    decreases |obj|
  {
    if obj == [] {
      assert [step][1..] == [] && obj + [step] == [step];
    } else {
      assert (obj + [step])[1..] == obj[1..] + [step];
      ReplacedBelow(Below(root, obj[0]).value, obj[1..], step, x);
    }
  }

  // Nothing that does not lie at the object, below it or above it moves.
  lemma {:induction false} ReplacedElsewhere(root: Value, obj: ObjId, x: Value, other: ObjId)
    requires Lookup(root, obj).Some? && !(obj <= other) && !(other <= obj)
    ensures Lookup(Replace(root, obj, x), other) == Lookup(root, other)
    decreases |obj|
  {
    if obj[0] == other[0] {
      assert obj == [obj[0]] + obj[1..] && other == [other[0]] + other[1..];
      match Below(root, obj[0])
      case Some(v) => ReplacedElsewhere(v, obj[1..], x, other[1..]);
    }
  }

  // What replacing an object and then something below it comes to.
  lemma ReplacedThenBelow(root: Value, obj: ObjId, v: Value, step: Step, x: Value)
    requires Lookup(root, obj).Some? && Below(v, step).Some?
    ensures var now := Replace(root, obj, v);
            && Lookup(now, obj) == Some(v) && Lookup(now, obj + [step]) == Below(v, step)
            && Replace(now, obj + [step], x) == Replace(root, obj, WithBelow(v, step, x))
  {
    hide Below, WithBelow;
    ReplacedIsThere(root, obj, v);
    ReplacedBelow(Replace(root, obj, v), obj, step, x);
    ReplacedTwice(root, obj, v, WithBelow(v, step, x));
  }

  // One more key of the patch.
  lemma WrittenOneMore(before: map<string, Value>, patch: map<string, Value>, todo: set<string>, key: string)
    requires key in todo && key in patch
    ensures var was, now := Written(Object(before), Object(patch - todo)),
        Written(Object(before), Object(patch - (todo - {key})));
            && Child(was.members, key) == Child(before, key)
            && now.members == if patch[key] == Null then was.members - {key}
                              else was.members[key := Written(Child(before, key), patch[key])]
  {
  }

  // An object patch only asks for the members of what it is written over; any other patch for nothing.
  lemma WrittenOver(target: Value, patch: Value)
    ensures Written(Object(MembersOf(target)), patch) == Written(target, patch)
    ensures !patch.Object? ==> Written(target, patch) == Written(Null, patch)
  {
  }

  // The items of a list, each as it is written afresh.
  function AllWritten(items: seq<Value>): seq<Value> {
    if items == [] then [] else AllWritten(items[..|items| - 1]) + [Written(Null, items[|items| - 1])]
  }

  lemma {:induction false} ListIsWritten(items: seq<Value>)
    ensures |AllWritten(items)| == |items| &&
        forall i :: 0 <= i < |items| ==> AllWritten(items)[i] == Written(Null, items[i])
    ensures Written(Null, Array(items)) == Array(AllWritten(items))
  {
    if items != [] {
      ListIsWritten(items[..|items| - 1]);
    }
    assert Written(Null, Array(items)).items == AllWritten(items);
  }

  class Transaction {
    var root: Value

    constructor (doc: Value)
      requires doc.Object?
      ensures root == doc
    {
      root := doc;
    }

    // What the transaction has at a key of a map.
    method Get(obj: ObjId, key: string) returns (v: Option<Value>)
      requires Lookup(root, obj).Some?
      ensures v == Member(Lookup(root, obj).value, key)
    {
      v := Member(Lookup(root, obj).value, key);
    }

    method Put(obj: ObjId, key: string, v: Value)
      requires Lookup(root, obj).Some? && Lookup(root, obj).value.Object?
      modifies this
      ensures root == Replace(old(root), obj, Object(Lookup(old(root), obj).value.members[key := v]))
    {
      root := Replace(root, obj, Object(Lookup(root, obj).value.members[key := v]));
    }

    method Delete(obj: ObjId, key: string)
      requires Lookup(root, obj).Some? && Lookup(root, obj).value.Object?
      modifies this
      ensures root == Replace(old(root), obj, Object(Lookup(old(root), obj).value.members - {key}))
    {
      root := Replace(root, obj, Object(Lookup(root, obj).value.members - {key}));
    }

    method Insert(list: ObjId, index: nat, v: Value)
      requires Lookup(root, list).Some? && Lookup(root, list).value.Array? && index <= |Lookup(root, list).value.items|
      modifies this
      ensures var items := Lookup(old(root), list).value.items;
              root == Replace(old(root), list, Array(items[..index] + [v] + items[index..]))
    {
      var items := Lookup(root, list).value.items;
      root := Replace(root, list, Array(items[..index] + [v] + items[index..]));
    }

    // The map at a key, the one that is there or a new one.
    method EnsureMap(obj: ObjId, key: string) returns (child: ObjId)
      requires Lookup(root, obj).Some? && Lookup(root, obj).value.Object?
      modifies this
      ensures child == obj + [Key(key)]
      ensures var members := Lookup(old(root), obj).value.members;
              root == Replace(old(root), obj, Object(members[key := Object(MembersOf(Child(members, key)))]))
    {
      var v := Get(obj, key);
      if v.Some? && v.value.Object? {
        assert Lookup(root, obj).value.members[key := v.value] == Lookup(root, obj).value.members;
        ReplacedIsThere(root, obj, Null);
        return obj + [Key(key)];
      }
      Put(obj, key, Object(map[]));
      return obj + [Key(key)];
    }

    // Write an object patch into the map at `obj`: what the map then shows is the patch written over
    // what it showed, and nothing outside it has moved.
    method WriteMap(obj: ObjId, merge: Value)
      requires Lookup(root, obj).Some? && Lookup(root, obj).value.Object? && merge.Object?
      modifies this
      ensures root == Replace(old(root), obj, Written(Lookup(old(root), obj).value, merge))
      decreases merge, 1
    {
      hide Lookup, Replace, Written;
      ghost var before := Lookup(root, obj).value.members;
      var patch := merge.members;
      var todo := patch.Keys;
      NothingWritten(root, obj, patch);
      while todo != {}
        invariant todo <= patch.Keys && Lookup(root, obj).Some? && Lookup(root, obj).value.Object?
        invariant Lookup(root, obj).value == Written(Object(before), Object(patch - todo))
        invariant root == Replace(old(root), obj, Written(Object(before), Object(patch - todo)))
      {
        var key :| key in todo;
        WriteMember(obj, key, patch[key]);
        OneMoreMember(old(root), obj, before, patch, todo, key);
        todo := todo - {key};
      }
      assert patch - {} == patch;
    }

    // Write one member of a patch.
    method WriteMember(obj: ObjId, key: string, value: Value)
      requires Lookup(root, obj).Some? && Lookup(root, obj).value.Object?
      modifies this
      ensures var members := Lookup(old(root), obj).value.members;
              root == Replace(old(root), obj, Object(if value == Null then members - {key}
                  else members[key := Written(Child(members, key), value)]))
      decreases value, 3
    {
      hide Lookup, Replace, Written;
      match value
      case Null => Delete(obj, key);
      case Object(_) =>
        ghost var members := Lookup(root, obj).value.members;
        ghost var over := Object(MembersOf(Child(members, key)));
        WrittenOver(Child(members, key), value);
        ReplacedThenBelow(root, obj, Object(members[key := over]), Key(key), Written(over, value));
        var child := EnsureMap(obj, key);
        WriteMap(child, value);
        assert members[key := over][key := Written(over, value)] == members[key := Written(over, value)];
      case _ =>
        WrittenOver(Child(Lookup(root, obj).value.members, key), value);
        WriteValue(obj, key, value);
    }

    // Write a scalar or an array at a key, replacing whatever is there.
    method WriteValue(obj: ObjId, key: string, value: Value)
      requires Lookup(root, obj).Some? && Lookup(root, obj).value.Object? && !value.Object? && value != Null
      modifies this
      ensures root == Replace(old(root), obj, Object(Lookup(old(root), obj).value.members[key := Written(Null, value)]))
      decreases value, 2
    {
      hide Lookup, Replace;
      if value.Array? {
        ghost var members := Lookup(root, obj).value.members;
        ReplacedThenBelow(root, obj, Object(members[key := Array([])]), Key(key), Written(Null, value));
        Put(obj, key, Array([]));
        AppendAll(obj + [Key(key)], value);
        assert members[key := Array([])][key := Written(Null, value)] == members[key := Written(Null, value)];
      } else {
        Put(obj, key, value);
      }
    }

    // Fill a new list, item by item.
    method AppendAll(list: ObjId, value: Value)
      requires value.Array? && Lookup(root, list) == Some(Array([]))
      modifies this
      ensures root == Replace(old(root), list, Written(Null, value))
      decreases value, 0
    {
      hide Lookup, Replace, Written;
      var items := value.items;
      ReplacedIsThere(root, list, Null);
      for i := 0 to |items|
        invariant root == Replace(old(root), list, Array(AllWritten(items[..i])))
        invariant Lookup(root, list) == Some(Array(AllWritten(items[..i])))
      {
        ListIsWritten(items[..i]);
        AppendItem(list, i, items[i]);
        assert items[..i + 1][..i] == items[..i];
        ReplacedTwice(old(root), list, Array(AllWritten(items[..i])), Array(AllWritten(items[..i + 1])));
        ReplacedIsThere(old(root), list, Array(AllWritten(items[..i + 1])));
      }
      assert items[..|items|] == items;
      ListIsWritten(items);
    }

    // Add an item at the end of a list.
    method AppendItem(list: ObjId, index: nat, item: Value)
      requires Lookup(root, list).Some? && Lookup(root, list).value.Array? && index == |Lookup(root, list).value.items|
      modifies this
      ensures root == Replace(old(root), list, Array(Lookup(old(root), list).value.items + [Written(Null, item)]))
      decreases item, 2
    {
      hide Lookup, Replace;
      ghost var items := Lookup(root, list).value.items;
      Inserted(items, Written(Null, item), item, index);
      match item
      case Object(_) =>
        ReplacedThenBelow(root, list, Array(items + [Object(map[])]), Index(index), Written(Null, item));
        Insert(list, index, Object(map[]));
        WriteMap(list + [Index(index)], item);
      case Array(_) =>
        ReplacedThenBelow(root, list, Array(items + [Array([])]), Index(index), Written(Null, item));
        Insert(list, index, Array([]));
        AppendAll(list + [Index(index)], item);
      case _ =>
        Insert(list, index, item);
    }

    lemma Inserted(items: seq<Value>, w: Value, item: Value, index: nat)
      requires index == |items|
      ensures forall v: Value :: items[..index] + [v] + items[index..] == items + [v]
      ensures forall v: Value :: (items + [v])[index := w] == items + [w]
    {
    }

    lemma NothingWritten(root: Value, obj: ObjId, patch: map<string, Value>)
      requires Lookup(root, obj).Some? && Lookup(root, obj).value.Object?
      ensures Written(Lookup(root, obj).value, Object(patch - patch.Keys)) == Lookup(root, obj).value
      ensures Replace(root, obj, Lookup(root, obj).value) == root
    {
    }

    lemma OneMoreMember(root: Value, obj: ObjId, before: map<string, Value>, patch: map<string, Value>,
                        todo: set<string>, key: string)
      requires Lookup(root, obj).Some? && key in todo && key in patch
      ensures var was, now := Written(Object(before), Object(patch - todo)),
          Written(Object(before), Object(patch - (todo - {key})));
              && Lookup(Replace(root, obj, was), obj).Some?
              && Replace(Replace(root, obj, was), obj, now) == Replace(root, obj, now) &&
                  Lookup(Replace(root, obj, now), obj) == Some(now)
              && now == Object(if patch[key] == Null then was.members - {key}
                               else was.members[key := Written(Child(was.members, key), patch[key])])
    {
      WrittenOneMore(before, patch, todo, key);
      hide Written;
      var was, now := Written(Object(before), Object(patch - todo)),
          Written(Object(before), Object(patch - (todo - {key})));
      ReplacedTwice(root, obj, was, now);
      ReplacedIsThere(root, obj, now);
    }
  }

  // The document a merge gives, worked out on a copy. A merge that is not an object is refused.
  method BuildChange(doc: Value, merge: Value) returns (merged: Option<Value>)
    requires doc.Object?
    ensures merged.Some? <==> merge.Object?
    ensures merged.Some? ==> merged.value == Written(doc, merge)
    ensures merged.Some? ==> (merged.value == MergePatch(doc, merge) <==> ArraysHaveNoNulls(merge))
  {
    if !merge.Object? {
      return None;
    }
    WritesMergePatch(doc, merge);
    var tx := new Transaction(doc);
    tx.WriteMap([], merge);
    return Some(tx.root);
  }
}
