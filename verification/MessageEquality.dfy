/** AreMessagesEqual and IsFieldSuperset: comparing messages, whose fields may hold
    further messages to any depth. */
module MessageEquality {
  /** The type code of a field that holds messages. */
  const B_MESSAGE_TYPE := 0x4D534747

  datatype Message = Message(what: int, fields: seq<Field>)

  datatype Field = Field(name: string, typeCode: int, values: seq<Value>)

  datatype Value = Data(bytes: seq<int>) | Nested(message: Message)

  /** Each name once, and messages in exactly the message fields. */
  predicate WellFormed(m: Message) {
    && (forall i, j :: 0 <= i < j < |m.fields| ==> m.fields[i].name != m.fields[j].name)
    && (forall i :: 0 <= i < |m.fields| ==>
          forall j :: 0 <= j < |m.fields[i].values| ==>
            var v := m.fields[i].values[j];
            v.Nested? == (m.fields[i].typeCode == B_MESSAGE_TYPE) && (v.Nested? ==> WellFormed(v.message)))
  }

  /** How deep messages are nested. */
  function Depth(m: Message): nat {
    1 + FieldsDepth(m.fields)
  }

  function FieldsDepth(fields: seq<Field>): (d: nat)
    ensures forall i :: 0 <= i < |fields| ==> ValuesDepth(fields[i].values) <= d
  {
    if fields == [] then 0
    else
      var first := ValuesDepth(fields[0].values);
      var rest := FieldsDepth(fields[1..]);
      assert forall i :: 0 < i < |fields| ==> fields[i] == fields[1..][i - 1];
      if first > rest then first else rest
  }

  function ValuesDepth(values: seq<Value>): (d: nat)
    ensures forall j :: 0 <= j < |values| ==> ValueDepth(values[j]) <= d
  {
    if values == [] then 0
    else
      var first := ValueDepth(values[0]);
      var rest := ValuesDepth(values[1..]);
      assert forall j :: 0 < j < |values| ==> values[j] == values[1..][j - 1];
      if first > rest then first else rest
  }

  function ValueDepth(v: Value): nat {
    if v.Nested? then Depth(v.message) else 0
  }

  lemma NestedIsShallower(m: Message, i: nat, j: nat)
    requires i < |m.fields| && j < |m.fields[i].values| && m.fields[i].values[j].Nested?
    ensures Depth(m.fields[i].values[j].message) < Depth(m)
  {
    assert ValueDepth(m.fields[i].values[j]) <= ValuesDepth(m.fields[i].values) <= FieldsDepth(m.fields);
  }

  /** GetInfo by name: the index of the field, or -1. */
  function FindField(fields: seq<Field>, name: string): (k: int)
    ensures -1 <= k < |fields|
    ensures k >= 0 ==> fields[k].name == name
    ensures k < 0 ==> forall i :: 0 <= i < |fields| ==> fields[i].name != name
  {
    if fields == [] then -1
    else if fields[|fields| - 1].name == name then |fields| - 1
    else FindField(fields[..|fields| - 1], name)
  }

  predicate AreMessagesEqual(m1: Message, m2: Message)
    decreases Depth(m1) + Depth(m2), 2
  {
    && m1.what == m2.what
    && |m1.fields| == |m2.fields|
    && IsFieldSuperset(m1, m2)
    && IsFieldSuperset(m2, m1)
  }

  predicate IsFieldSuperset(m1: Message, m2: Message)
    decreases Depth(m1) + Depth(m2), 1
  {
    forall i :: 0 <= i < |m1.fields| ==>
      var k := FindField(m2.fields, m1.fields[i].name);
      k >= 0 && SameField(m1, i, m2, k)
  }

  predicate SameField(m1: Message, i: nat, m2: Message, k: nat)
    requires i < |m1.fields| && k < |m2.fields|
    decreases Depth(m1) + Depth(m2), 0
  {
    var f1, f2 := m1.fields[i], m2.fields[k];
    && f2.typeCode == f1.typeCode
    && |f2.values| == |f1.values|
    && forall j :: 0 <= j < |f1.values| ==>
         var v1, v2 := f1.values[j], f2.values[j];
         if f1.typeCode == B_MESSAGE_TYPE then
           v1.Nested? && v2.Nested?
           && (NestedIsShallower(m1, i, j); NestedIsShallower(m2, k, j); AreMessagesEqual(v1.message, v2.message))
         else
           v1.Data? && v2.Data? && v1.bytes == v2.bytes
  }

  // ---------- What the comparison decides ----------

  /** A message without the order of its fields. */
  datatype Tree = Tree(what: int, fields: map<string, Branch>)

  datatype Branch = Branch(typeCode: int, values: seq<Leaf>)

  datatype Leaf = Bytes(bytes: seq<int>) | Sub(tree: Tree)

  function Structure(m: Message): Tree
    requires WellFormed(m)
  {
    Tree(m.what, map i | 0 <= i < |m.fields| :: m.fields[i].name := FieldStructure(m, i))
  }

  function FieldStructure(m: Message, i: nat): Branch
    requires WellFormed(m) && i < |m.fields|
    decreases m, 0
  {
    Branch(m.fields[i].typeCode, seq(|m.fields[i].values|, j requires 0 <= j < |m.fields[i].values| =>
      var v := m.fields[i].values[j];
      if v.Nested? then Sub(Structure(v.message)) else Bytes(v.bytes)))
  }

  predicate Included(a: map<string, Branch>, b: map<string, Branch>) {
    forall name :: name in a ==> name in b && b[name] == a[name]
  }

  lemma FieldAt(m: Message, i: nat)
    requires WellFormed(m) && i < |m.fields|
    ensures m.fields[i].name in Structure(m).fields
    ensures Structure(m).fields[m.fields[i].name] == FieldStructure(m, i)
    ensures FindField(m.fields, m.fields[i].name) == i
  {
  }

  /** The comparison decides structural equality, at any depth of nesting. */
  lemma {:induction false} EqualIff(m1: Message, m2: Message)
    requires WellFormed(m1) && WellFormed(m2)
    ensures AreMessagesEqual(m1, m2) <==> Structure(m1) == Structure(m2)
    decreases Depth(m1) + Depth(m2), 2
  {
    hide WellFormed, FieldStructure, IsFieldSuperset, FindField;
    var a, b := Structure(m1), Structure(m2);
    SupersetIff(m1, m2);
    SupersetIff(m2, m1);
    FieldCount(m1);
    FieldCount(m2);
    if Included(a.fields, b.fields) && Included(b.fields, a.fields) {
      assert a.fields == b.fields;
    }
  }

  lemma {:induction false} SupersetIff(m1: Message, m2: Message)
    requires WellFormed(m1) && WellFormed(m2)
    ensures IsFieldSuperset(m1, m2) <==> Included(Structure(m1).fields, Structure(m2).fields)
    decreases Depth(m1) + Depth(m2), 1
  {
    var a, b := Structure(m1).fields, Structure(m2).fields;
    forall i | 0 <= i < |m1.fields|
      ensures var name := m1.fields[i].name;
              var k := FindField(m2.fields, name);
              (k >= 0 && SameField(m1, i, m2, k)) <==> (name in b && b[name] == a[name])
    {
      FieldAt(m1, i);
      var k := FindField(m2.fields, m1.fields[i].name);
      if k >= 0 {
        FieldAt(m2, k);
        FieldIff(m1, i, m2, k);
      }
    }
    forall name | name in a ensures exists i :: 0 <= i < |m1.fields| && m1.fields[i].name == name {
    }
  }

  lemma {:induction false} FieldIff(m1: Message, i: nat, m2: Message, k: nat)
    requires WellFormed(m1) && WellFormed(m2) && i < |m1.fields| && k < |m2.fields|
    ensures SameField(m1, i, m2, k) <==> FieldStructure(m1, i) == FieldStructure(m2, k)
    decreases Depth(m1) + Depth(m2), 0
  {
    var f1, f2 := m1.fields[i], m2.fields[k];
    var b1, b2 := FieldStructure(m1, i), FieldStructure(m2, k);
    assert |b1.values| == |f1.values| && |b2.values| == |f2.values|;
    if f1.typeCode == f2.typeCode && |f1.values| == |f2.values| {
      if f1.typeCode == B_MESSAGE_TYPE {
        forall j | 0 <= j < |f1.values|
          ensures AreMessagesEqual(f1.values[j].message, f2.values[j].message) <==> b1.values[j] == b2.values[j]
        {
          NestedIsShallower(m1, i, j);
          NestedIsShallower(m2, k, j);
          EqualIff(f1.values[j].message, f2.values[j].message);
        }
      } else {
        forall j | 0 <= j < |f1.values|
          ensures f1.values[j].bytes == f2.values[j].bytes <==> b1.values[j] == b2.values[j]
        {
        }
      }
      if SameField(m1, i, m2, k) {
        assert b1.values == b2.values;
      }
      if b1 == b2 {
        assert SameField(m1, i, m2, k);
      }
    }
  }

  lemma FieldCount(m: Message)
    requires WellFormed(m)
    ensures |Structure(m).fields| == |m.fields|
  {
    var names := Structure(m).fields.Keys;
    DistinctNames(m.fields, |m.fields|);
    assert names == set i | 0 <= i < |m.fields| :: m.fields[i].name;
  }

  lemma {:induction false} DistinctNames(fields: seq<Field>, n: nat)
    requires n <= |fields|
    requires forall i, j :: 0 <= i < j < |fields| ==> fields[i].name != fields[j].name
    ensures |set i | 0 <= i < n :: fields[i].name| == n
  {
    if n > 0 {
      DistinctNames(fields, n - 1);
      var fewer := set i | 0 <= i < n - 1 :: fields[i].name;
      var last := fields[n - 1].name;
      assert last !in fewer;
      assert (set i | 0 <= i < n :: fields[i].name) == fewer + {last};
    }
  }

  /** Equality of messages is an equivalence relation. */
  lemma EqualityIsEquivalence(m1: Message, m2: Message, m3: Message)
    requires WellFormed(m1) && WellFormed(m2) && WellFormed(m3)
    ensures AreMessagesEqual(m1, m1)
    ensures AreMessagesEqual(m1, m2) ==> AreMessagesEqual(m2, m1)
    ensures AreMessagesEqual(m1, m2) && AreMessagesEqual(m2, m3) ==> AreMessagesEqual(m1, m3)
  {
    EqualIff(m1, m1);
    EqualIff(m1, m2);
    EqualIff(m2, m1);
    EqualIff(m2, m3);
    EqualIff(m1, m3);
  }

  /** With as many fields in both, the first inclusion implies the second. */
  lemma SecondSupersetIsImplied(m1: Message, m2: Message)
    requires WellFormed(m1) && WellFormed(m2) && |m1.fields| == |m2.fields|
    requires IsFieldSuperset(m1, m2)
    ensures IsFieldSuperset(m2, m1)
  {
    hide WellFormed, FieldStructure, IsFieldSuperset;
    SupersetIff(m1, m2);
    SupersetIff(m2, m1);
    FieldCount(m1);
    FieldCount(m2);
    var a, b := Structure(m1).fields, Structure(m2).fields;
    assert a.Keys <= b.Keys;
    SameSize(a.Keys, b.Keys);
  }

  lemma SameSize(a: set<string>, b: set<string>)
    requires a <= b && |a| == |b|
    ensures a == b
  {
    assert b == a + (b - a);
  }
}
