/** Writing a JSON merge patch into a document (crates/fofoca-doc/src/lib.rs). */
module Merge {
  import opened Json

  // ---- What a patch means, and what is written for it ----

  function MembersOf(v: Value): map<string, Value> {
    if v.Object? then v.members else map[]
  }

  // What is at a key, or nothing an object could be merged into.
  function Child(members: map<string, Value>, key: string): Value {
    if key in members then members[key] else Null
  }

  // MergePatch of section 2 of RFC 7386.
  function MergePatch(target: Value, patch: Value): Value
    decreases patch
  {
    match patch
    case Object(p) =>
      var t := MembersOf(target);
      Object(map k | k in t.Keys + p.Keys &&
          (k in p ==> p[k] != Null) :: if k in p then MergePatch(Child(t, k), p[k]) else t[k])
    case _ => patch
  }

  // Member by member, as RFC 7386 has it: a null removes, a member the patch does not name stays, and any other
  // is patched over what is there, or over nothing. A target that is no object counts as an empty one, and a
  // patch that is no object takes the target's place.
  lemma MergePatchMeans(target: Value, patch: Value, k: string)
    ensures !patch.Object? ==> MergePatch(target, patch) == patch
    ensures patch.Object? ==>
              var p, merged := patch.members, MergePatch(target, patch);
              var there := target.Object? && k in target.members;
              && merged.Object?
              && (k !in p ==> (k in merged.members <==> there) && (there ==> merged.members[k] == target.members[k]))
              && (k in p && p[k] == Null ==> k !in merged.members)
              && (k in p && p[k] != Null ==>
                    && k in merged.members
                    && merged.members[k] == MergePatch(if there then target.members[k] else Null, p[k]))
  {
  }

  // What the document shows where a value was written over a target. A list is built item by item.
  function Written(target: Value, patch: Value): Value
    decreases patch
  {
    match patch
    case Object(p) =>
      var t := MembersOf(target);
      Object(map k | k in t.Keys + p.Keys &&
          (k in p ==> p[k] != Null) :: if k in p then Written(Child(t, k), p[k]) else t[k])
    case Array(items) => Array(seq(|items|, i requires 0 <= i < |items| => Written(Null, items[i])))
    case _ => patch
  }

  // The same of what is written, but for a list, whose items are written over nothing.
  lemma WrittenMeans(target: Value, patch: Value, k: string, i: nat)
    ensures !patch.Object? && !patch.Array? ==> Written(target, patch) == patch
    ensures patch.Array? ==> Written(target, patch).Array? && |Written(target, patch).items| == |patch.items|
    ensures patch.Array? && i < |patch.items| ==> Written(target, patch).items[i] == Written(Null, patch.items[i])
    ensures patch.Object? ==>
              var p, written := patch.members, Written(target, patch);
              var there := target.Object? && k in target.members;
              && written.Object?
              && (k !in p ==> (k in written.members <==> there) && (there ==> written.members[k] == target.members[k]))
              && (k in p && p[k] == Null ==> k !in written.members)
              && (k in p && p[k] != Null ==>
                    && k in written.members
                    && written.members[k] == Written(if there then target.members[k] else Null, p[k]))
  {
  }

  // No object in here has a null member.
  predicate HasNoNulls(v: Value) {
    match v
    case Object(members) => forall k :: k in members ==> members[k] != Null && HasNoNulls(members[k])
    case Array(items) => forall i :: 0 <= i < |items| ==> HasNoNulls(items[i])
    case _ => true
  }

  // No object inside an array has a null member.
  predicate ArraysHaveNoNulls(v: Value) {
    match v
    case Object(members) => forall k :: k in members ==> ArraysHaveNoNulls(members[k])
    case Array(_) => HasNoNulls(v)
    case _ => true
  }

  // A value written afresh is what it says exactly when no object in it has a null member.
  lemma {:induction false} WrittenAfresh(v: Value)
    ensures Written(Null, v) == v <==> HasNoNulls(v)
  {
    match v
    case Object(members) =>
      forall k | k in members ensures Written(Null, members[k]) == members[k] <==> HasNoNulls(members[k]) {
        WrittenAfresh(members[k]);
      }
      var w := Written(Null, v).members;
      if HasNoNulls(v) {
        assert w == members;
      } else {
        var k :| k in members && !(members[k] != Null && HasNoNulls(members[k]));
        assert k !in w || w[k] != members[k];
      }
    case Array(items) =>
      forall i | 0 <= i < |items| ensures Written(Null, items[i]) == items[i] <==> HasNoNulls(items[i]) {
        WrittenAfresh(items[i]);
      }
      var w := Written(Null, v).items;
      if HasNoNulls(v) {
        assert w == items;
      } else {
        var i :| 0 <= i < |items| && !HasNoNulls(items[i]);
        assert w[i] != items[i];
      }
    case _ =>
  }

  // The keys an object has once patched.
  function Patched(target: Value, p: map<string, Value>): set<string> {
    set k | k in MembersOf(target).Keys + p.Keys && (k in p ==> p[k] != Null)
  }

  lemma WrittenMembers(target: Value, p: map<string, Value>)
    ensures Written(target, Object(p)).Object? && Written(target, Object(p)).members.Keys == Patched(target, p)
    ensures forall k :: k in Patched(target, p) ==>
              Written(target, Object(p)).members[k] ==
                  if k in p then Written(Child(MembersOf(target), k), p[k]) else MembersOf(target)[k]
  {
  }

  lemma MergedMembers(target: Value, p: map<string, Value>)
    ensures MergePatch(target, Object(p)).Object? && MergePatch(target, Object(p)).members.Keys == Patched(target, p)
    ensures forall k :: k in Patched(target, p) ==>
              MergePatch(target, Object(p)).members[k] ==
                  if k in p then MergePatch(Child(MembersOf(target), k), p[k]) else MembersOf(target)[k]
  {
  }

  // Both agree about a member.
  predicate AgreeAt(target: Value, p: map<string, Value>, k: string)
    requires k in p
  {
    Written(Child(MembersOf(target), k), p[k]) == MergePatch(Child(MembersOf(target), k), p[k])
  }

  // Two patched objects agree exactly if all their members do.
  lemma MembersAgree(target: Value, p: map<string, Value>)
    ensures Written(target, Object(p)) == MergePatch(target, Object(p)) <==> forall k :: k in p ==> AgreeAt(target, p, k)
  {
    forall k | k in p && p[k] == Null ensures AgreeAt(target, p, k) {
    }
    WrittenMembers(target, p);
    MergedMembers(target, p);
    var w, m := Written(target, Object(p)).members, MergePatch(target, Object(p)).members;
    hide Written, MergePatch;
    if forall k :: k in p ==> AgreeAt(target, p, k) {
      assert w == m;
    } else {
      var k :| k in p && !AgreeAt(target, p, k);
      assert w[k] != m[k];
    }
  }

  // What is written is MergePatch, whatever is written over, exactly when no object inside an array of
  // the patch has a null member.
  lemma {:induction false} WritesMergePatch(target: Value, patch: Value)
    ensures Written(target, patch) == MergePatch(target, patch) <==> ArraysHaveNoNulls(patch)
    decreases patch
  {
    match patch
    case Object(p) =>
      forall k | k in p ensures AgreeAt(target, p, k) <==> ArraysHaveNoNulls(p[k]) {
        WritesMergePatch(Child(MembersOf(target), k), p[k]);
      }
      assert ArraysHaveNoNulls(patch) <==> forall k :: k in p ==> ArraysHaveNoNulls(p[k]);
      hide ArraysHaveNoNulls;
      MembersAgree(target, p);
    case Array(items) =>
      WrittenAfresh(patch);
    case _ =>
  }

  // Writing the same patch again changes nothing.
  lemma {:induction false} WritingTwice(target: Value, patch: Value)
    ensures Written(Written(target, patch), patch) == Written(target, patch)
    decreases patch
  {
    match patch
    case Object(p) =>
      WrittenMembers(target, p);
      var once := Written(target, patch).members;
      forall k | k in p && p[k] != Null ensures Written(Child(once, k), p[k]) == once[k] {
        WritingTwice(Child(MembersOf(target), k), p[k]);
      }
      hide Written;
      MembersTwice(target, p, once);
    case _ =>
  }

  lemma MembersTwice(target: Value, p: map<string, Value>, once: map<string, Value>)
    requires Written(target, Object(p)) == Object(once)
    requires forall k :: k in p && p[k] != Null ==> k in once && Written(Child(once, k), p[k]) == once[k]
    ensures Written(Object(once), Object(p)) == Object(once)
  {
    WrittenMembers(target, p);
    WrittenMembers(Object(once), p);
    hide Written;
    assert Written(Object(once), Object(p)).members == once;
  }

  // A patch with a null inside an object inside an array: RFC 7386 keeps the null, what is written drops it.
  lemma NullInAnArray()
    ensures var patch := Object(map["a" := Array([Object(map["b" := Null])])]);
            && MergePatch(Object(map[]), patch) == patch
            && Written(Object(map[]), patch) == Object(map["a" := Array([Object(map[])])])
  {
    var inner := Object(map["b" := Null]);
    var patch := Object(map["a" := Array([inner])]);
    assert Written(Null, inner).members == map[];
    assert Written(Null, Array([inner])).items == [Object(map[])];
    assert Written(Object(map[]), patch).members == map["a" := Array([Object(map[])])];
    assert MergePatch(Object(map[]), patch).members == map["a" := Array([inner])];
  }
}
